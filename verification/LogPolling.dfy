/** Block bounds of a log query, the back-off that narrows an overflowing query, and the cursor
    of a logs subscription (evmrpc/filter.go, evmrpc/subscribe.go). */
module LogPolling {
  import opened EthLogs
  import opened Blooms
  import opened LogFilter
  import opened LogPaths
  import opened LogWorkers
  import opened Wrappers

  datatype Bounds = Window(begin: int, end: int) | OutOfBounds

  /** The tags pending, latest, finalized and safe stand for the latest height. */
  predicate IsTag(n: int) {
    -4 <= n <= -1
  }

  function Height(latest: int, n: int): int {
    if IsTag(n) then latest else n
  }

  /** The requested range before the cursor is applied. */
  function Requested(latest: int, from: Option<int>, to: Option<int>): (int, int) {
    var end := if to.Some? then Height(latest, to.value) else latest;
    var begin := if from.Some? then Height(latest, from.value) else latest;
    (if from.None? && begin > end then end else begin, end)
  }

  function ComputeBlockBounds(latest: int, earliest: int, lastToHeight: int, from: Option<int>,
                              to: Option<int>): (b: Bounds)
    ensures var (begin, end) := Requested(latest, from, to);
            b == if earliest <= begin <= end <= latest
                 then Window(if lastToHeight > begin then lastToHeight else begin, end)
                 else OutOfBounds
  {
    var begin := if from.Some? then Height(latest, from.value) else latest;
    var end := if to.Some? then Height(latest, to.value) else latest;
    var begin' := if to.Some? && from.None? && begin > end then end else begin;
    if begin' > end then OutOfBounds
    else if begin' < earliest then OutOfBounds
    else if end > latest then OutOfBounds
    else if begin' > latest then OutOfBounds
    else if end < earliest then OutOfBounds
    else Window(if lastToHeight > begin' then lastToHeight else begin', end)
  }

  /** A node as successive reads see it: read number t of the watermarks returns latest(t) and
      earliest(t), query number t meets the caches, watermarks and worker pool of views(t), and it may
      fail for reasons of its own. */
  datatype Node = Node(
    chain: Chain, crit: Criteria, caps: Caps, maxBlock: int,
    latest: nat -> int, earliest: nat -> nat, fails: nat -> bool, rangeQueries: bool,
    hash: Hasher, store: (nat, nat) -> seq<Log>, views: nat -> Reads, sched: Scheduling)
  {
    /** The safe latest height never goes back, and the stores keep what the two query paths need. */
    ghost predicate Valid() {
      && (forall s: nat, t: nat :: s <= t ==> latest(s) <= latest(t))
      && WellFormed(hash, chain) && NoFalseNegativeStore(chain, crit, store) && sched.Valid()
      && (forall t: nat, h: nat :: h in views(t).cached ==> h in chain)
    }

    /** All matching logs of a window. */
    function LogsIn(begin: int, end: int): seq<Log> {
      if 0 <= begin <= end then RangeLogs(chain, crit, begin, end + 1) else []
    }

    /** The blocks query number q reads from. */
    function Seen(q: nat): Chain {
      if rangeQueries then chain else Visible(chain, views(q))
    }

    /** The matching logs of a window that query number q can see. */
    function Served(q: nat, begin: int, end: int): seq<Log> {
      if 0 <= begin <= end then RangeLogs(Seen(q), crit, begin, end + 1) else []
    }

    /** Query number q passes over no block of the window that has a match. */
    ghost predicate Complete(q: nat, begin: int, end: int) {
      0 <= begin <= end && !rangeQueries ==> HidesNoMatch(chain, crit, views(q), begin, end + 1)
    }

    /** A block of the window is missing or outside the watermarks when query number q asks for it, or
        the worker pool has no room for the query. */
    ghost predicate Misses(q: nat, begin: int, end: int) {
      || (exists h: nat :: begin <= h <= end && (h !in chain || !views(q).available(h)))
      || (!rangeQueries && begin <= end && Busy(views(q), end + 1 - begin))
    }

    /** The logs that query number q can see in the window do not fit, or the store's candidates for
        a part of it do not. */
    ghost predicate Overflows(q: nat, begin: int, end: int) {
      || !FitsAll(caps, 0, 0, Served(q, begin, end))
      || (rangeQueries && 0 <= begin <= end && StoreOverflows(store, caps, begin, end))
    }
  }

  /** A query serves all matching logs of its window exactly when it is complete. */
  lemma ServedExactly(node: Node, q: nat, begin: int, end: int)
    ensures node.Served(q, begin, end) == node.LogsIn(begin, end) <==> node.Complete(q, begin, end)
  {
    hide RangeLogs, Visible, HidesNoMatch;
    if 0 <= begin <= end {
      PathsAgree(node.chain, node.crit, node.views(q), begin, end);
    }
  }

  datatype Outcome = Fetched(logs: seq<Log>, end: int) | Overflow | Failed

  /** Read a window by the path the store supports. */
  method ReadWindow(node: Node, q: nat, begin: nat, end: nat) returns (o: Outcome)
    requires node.Valid() && begin <= end
    ensures o.Fetched? ==> o == Fetched(node.Served(q, begin, end), end) && !node.Overflows(q, begin, end)
    ensures o.Overflow? ==> node.Overflows(q, begin, end)
    ensures o.Failed? ==> node.fails(q) || node.Misses(q, begin, end)
  {
    hide RangeLogs, LogsAt, WellFormed, NoFalseNegativeStore, Scheduling.Valid, FitsAll, Visible, BloomSkips, Busy,
         StoreOverflows;
    if node.fails(q) {
      return Failed;
    }
    var r;
    if node.rangeQueries {
      var available := node.views(q).available;
      r := TryFilterLogsRange(node.hash, node.chain, node.crit, node.store, available, begin, end, node.caps);
    } else {
      r := GetLogsBlockByBlock(node.hash, node.chain, node.crit, node.views(q), begin, end, node.caps, node.sched);
    }
    match r {
      case Logs(logs) => return Fetched(logs, end);
      case TooManyLogs => return Overflow;
      case BlockUnavailable | Overloaded => return Failed;
    }
  }

  /** `w` is what the bounds come to at one of the reads t0, ..., t1 - 1. */
  ghost predicate BoundsSeen(node: Node, t0: nat, t1: nat, lastToHeight: int, from: Option<int>, to: Option<int>,
                             w: Bounds) {
    exists s :: t0 <= s < t1 && w == ComputeBlockBounds(node.latest(s), node.earliest(s), lastToHeight, from, to)
  }

  /** Read number s and query number q at which a request cannot be answered: the bounds reject it, it
      spans too many blocks or none, a block is missing, the pool is full, or the node fails. */
  ghost predicate Faulty(node: Node, s: nat, q: nat, lastToHeight: int, from: Option<int>, to: Option<int>) {
    var b := ComputeBlockBounds(node.latest(s), node.earliest(s), lastToHeight, from, to);
    || node.fails(q) || b.OutOfBounds?
    || b.begin > b.end || b.end - b.begin + 1 > node.maxBlock || node.Misses(q, b.begin, b.end)
  }

  ghost predicate FaultSeen(node: Node, t0: nat, t1: nat, lastToHeight: int, from: Option<int>, to: Option<int>) {
    exists s, q :: t0 <= s < t1 && t0 <= q < t1 && Faulty(node, s, q, lastToHeight, from, to)
  }

  /** The window a query served, or tried to serve, and the reads of the node it made. */
  method GetLogsByFilters(node: Node, t: nat, from: Option<int>, to: Option<int>, lastToHeight: int)
    returns (o: Outcome, w: Bounds, t': nat)
    requires node.Valid()
    ensures t < t'
    ensures !o.Failed? ==> w.Window? && BoundsSeen(node, t, t', lastToHeight, from, to, w)
    ensures o.Fetched? ==> o == Fetched(node.Served(t, w.begin, w.end), w.end)
    ensures o.Overflow? ==> w.begin <= w.end && node.Overflows(t, w.begin, w.end)
    ensures o.Failed? ==> FaultSeen(node, t, t', lastToHeight, from, to)
    ensures ComputeBlockBounds(node.latest(t), node.earliest(t), lastToHeight, from, to).OutOfBounds? ==> o.Failed?
  {
    hide Node.Valid, Node.Overflows, Node.Misses;
    t' := t + 1;
    w := ComputeBlockBounds(node.latest(t), node.earliest(t), lastToHeight, from, to);
    if w.OutOfBounds? {
      assert Faulty(node, t, t, lastToHeight, from, to);
      return Failed, w, t';
    }
    if w.begin > w.end {
      return Fetched([], w.end), w, t';
    }
    if w.end - w.begin + 1 > node.maxBlock {
      assert Faulty(node, t, t, lastToHeight, from, to);
      return Failed, w, t';
    }
    if !node.rangeQueries {
      // The block-by-block path reads the watermarks again.
      w := ComputeBlockBounds(node.latest(t + 1), node.earliest(t + 1), lastToHeight, from, to);
      t' := t + 2;
      if w.OutOfBounds? || w.begin > w.end {
        assert Faulty(node, t + 1, t, lastToHeight, from, to);
        return Failed, w, t';
      }
    }
    o := ReadWindow(node, t, w.begin, w.end);
    assert w == ComputeBlockBounds(node.latest(t' - 1), node.earliest(t' - 1), lastToHeight, from, to);
    assert o.Failed? ==> Faulty(node, t' - 1, t, lastToHeight, from, to);
  }

  /** Whether `from` names a height rather than a tag or nothing. */
  predicate Numeric(from: Option<int>) {
    from.Some? && !IsTag(from.value)
  }

  function FirstBlock(from: Option<int>, lastToHeight: int): int
    requires Numeric(from)
  {
    if lastToHeight > from.value then lastToHeight else from.value
  }

  /** Only a range with a numeric start can span more than one block without one. */
  lemma SingleBlockWithoutStart(latest: int, earliest: int, lastToHeight: int, from: Option<int>, to: Option<int>)
    requires !Numeric(from)
    ensures var b := ComputeBlockBounds(latest, earliest, lastToHeight, from, to);
            b.Window? ==> b.end <= b.begin
  {
  }

  /** A window inside the request: it starts at the first requested block and ends no later than
      the request did at one of the reads t0, ..., t1 - 1. */
  ghost predicate PrefixOfRequest(node: Node, t0: nat, t1: nat, lastToHeight: int, from: Option<int>,
                                  to: Option<int>, w: Bounds) {
    && w.Window?
    && (Numeric(from) ==> w.begin == FirstBlock(from, lastToHeight))
    && 0 <= w.begin && 0 <= w.end && (w.begin <= w.end || w.begin == lastToHeight)
    && exists s :: t0 <= s < t1 && w.end <= Requested(node.latest(s), from, to).1
  }

  /** Either nothing is narrowed yet, or the query is confined to such a window. */
  ghost predicate Narrowed(node: Node, t0: nat, t1: nat, lastToHeight: int, from: Option<int>, to: Option<int>,
                           narrowed: bool, from': Option<int>, to': Option<int>)
  {
    if !narrowed then from' == from && to' == to
    else Numeric(from) && from'.Some? && to'.Some? && 0 <= from'.value <= to'.value
         && PrefixOfRequest(node, t0, t1, lastToHeight, from, to, Window(from'.value, to'.value))
  }

  /** Bounds computed for a narrowed query stay inside the original request. */
  lemma SeenInsideRequest(node: Node, t0: nat, t: nat, t1: nat, lastToHeight: int, from: Option<int>, to: Option<int>,
                          narrowed: bool, from': Option<int>, to': Option<int>, w: Bounds)
    requires t0 <= t <= t1 && Narrowed(node, t0, t, lastToHeight, from, to, narrowed, from', to')
    requires w.Window? && BoundsSeen(node, t, t1, lastToHeight, from', to', w)
    ensures PrefixOfRequest(node, t0, t1, lastToHeight, from, to, w)
    ensures narrowed ==> w == Window(from'.value, to'.value)
  {
    var s :| t <= s < t1 && w == ComputeBlockBounds(node.latest(s), node.earliest(s), lastToHeight, from', to');
    if narrowed {
      var r :| t0 <= r < t && to'.value <= Requested(node.latest(r), from, to).1;
    }
  }

  /** If the bounds admit no narrowing now, the window that overflowed before was one block. */
  lemma NothingToNarrow(node: Node, t: nat, t1: nat, lastToHeight: int, from: Option<int>, to: Option<int>,
                        w: Bounds, cur: Bounds)
    requires node.Valid() && t <= t1 && w.Window? && w.begin <= w.end && cur.Window?
    requires BoundsSeen(node, t, t1, lastToHeight, from, to, w)
    requires cur == ComputeBlockBounds(node.latest(t1), node.earliest(t1), lastToHeight, from, to)
    requires cur.end <= cur.begin || cur.begin + (cur.end - cur.begin) / 2 <= lastToHeight
    ensures lastToHeight < w.begin ==> w.begin == w.end
  {
    var s :| t <= s < t1 && w == ComputeBlockBounds(node.latest(s), node.earliest(s), lastToHeight, from, to);
    assert node.latest(s) <= node.latest(t1);
  }

  /** A fault of the request itself or of a narrowed window inside it. */
  ghost predicate FaultInside(node: Node, t0: nat, t1: nat, lastToHeight: int, from: Option<int>, to: Option<int>) {
    || FaultSeen(node, t0, t1, lastToHeight, from, to)
    || exists lo, hi :: PrefixOfRequest(node, t0, t1, lastToHeight, from, to, Window(lo, hi)) &&
                        FaultSeen(node, t0, t1, lastToHeight, Some(lo), Some(hi))
  }

  lemma FaultOfNarrowed(node: Node, t0: nat, t: nat, t1: nat, lastToHeight: int, from: Option<int>, to: Option<int>,
                        narrowed: bool, from': Option<int>, to': Option<int>)
    requires t0 <= t <= t1 && Narrowed(node, t0, t, lastToHeight, from, to, narrowed, from', to')
    requires FaultSeen(node, t, t1, lastToHeight, from', to')
    ensures FaultInside(node, t0, t1, lastToHeight, from, to)
  {
    hide Faulty;
    assert FaultSeen(node, t0, t1, lastToHeight, from', to');
    if narrowed {
      var r :| t0 <= r < t && to'.value <= Requested(node.latest(r), from, to).1;
      assert PrefixOfRequest(node, t0, t1, lastToHeight, from, to, Window(from'.value, to'.value));
    }
  }

  /** getLogsByFiltersWithBackoff: halve the window until it fits. A success is a prefix of the
      request; for a cursor below the first block an overflow means one block alone overflows; any
      other error has a cause in the node. */
  method GetLogsWithBackoff(node: Node, t0: nat, from: Option<int>, to: Option<int>, lastToHeight: int)
    returns (o: Outcome, w: Bounds, t: nat, ghost q: nat)
    requires node.Valid()
    ensures t0 <= q < t
    ensures !o.Failed? ==> w.Window? && PrefixOfRequest(node, t0, t, lastToHeight, from, to, w)
    ensures o.Fetched? ==> o == Fetched(node.Served(q, w.begin, w.end), w.end)
    ensures o.Overflow? ==> node.Overflows(q, w.begin, w.end) && (lastToHeight < w.begin ==> w.begin == w.end)
    ensures o.Failed? ==> FaultInside(node, t0, t, lastToHeight, from, to)
    ensures ComputeBlockBounds(node.latest(t0), node.earliest(t0), lastToHeight, from, to).OutOfBounds? ==> o.Failed?
  {
    hide BoundsSeen, PrefixOfRequest, Requested, Height, Node.Valid, FaultSeen, FaultInside, Node.Misses;
    var narrowedFrom, narrowedTo, narrowed := from, to, false;
    t := t0;
    while true
      invariant !narrowed ==> t == t0
      invariant narrowed ==> ComputeBlockBounds(node.latest(t0), node.earliest(t0), lastToHeight, from, to).Window?
      invariant t0 <= t && Narrowed(node, t0, t, lastToHeight, from, to, narrowed, narrowedFrom, narrowedTo)
      decreases !narrowed, if narrowed then narrowedTo.value - narrowedFrom.value else 0
    {
      ghost var t1 := t;
      q := t;
      o, w, t := GetLogsByFilters(node, t, narrowedFrom, narrowedTo, lastToHeight);
      if o.Failed? {
        FaultOfNarrowed(node, t0, t1, t, lastToHeight, from, to, narrowed, narrowedFrom, narrowedTo);
        return;
      }
      SeenInsideRequest(node, t0, t1, t, lastToHeight, from, to, narrowed, narrowedFrom, narrowedTo, w);
      if o.Fetched? {
        return;
      }
      var cur := ComputeBlockBounds(node.latest(t), node.earliest(t), lastToHeight, narrowedFrom, narrowedTo);
      if cur.OutOfBounds? {
        OutOfBoundsIsFault(node, t1, t, lastToHeight, narrowedFrom, narrowedTo);
        FaultOfNarrowed(node, t0, t1, t + 1, lastToHeight, from, to, narrowed, narrowedFrom, narrowedTo);
        return Failed, w, t + 1, q;
      }
      var mid := cur.begin + (cur.end - cur.begin) / 2;
      if cur.end <= cur.begin || mid <= lastToHeight {
        NothingToNarrow(node, t1, t, lastToHeight, narrowedFrom, narrowedTo, w, cur);
        return;
      }
      t := t + 1;
      CurrentSeen(node, t1, t, lastToHeight, narrowedFrom, narrowedTo);
      SeenInsideRequest(node, t0, t1, t, lastToHeight, from, to, narrowed, narrowedFrom, narrowedTo, cur);
      NarrowStep(node, t0, t, lastToHeight, from, to, narrowedFrom, narrowedTo, cur, narrowed);
      narrowedFrom, narrowedTo, narrowed := Some(cur.begin), Some(mid), true;
    }
  }

  lemma OutOfBoundsIsFault(node: Node, t: nat, s: nat, lastToHeight: int, from: Option<int>, to: Option<int>)
    requires t <= s && ComputeBlockBounds(node.latest(s), node.earliest(s), lastToHeight, from, to).OutOfBounds?
    ensures FaultSeen(node, t, s + 1, lastToHeight, from, to)
  {
    assert Faulty(node, s, s, lastToHeight, from, to);
  }

  lemma CurrentSeen(node: Node, t: nat, t1: nat, lastToHeight: int, from: Option<int>, to: Option<int>)
    requires t < t1
    ensures BoundsSeen(node, t, t1, lastToHeight, from, to,
                       ComputeBlockBounds(node.latest(t1 - 1), node.earliest(t1 - 1), lastToHeight, from, to))
  {
    var s := t1 - 1;
    assert t <= s < t1;
  }

  lemma NarrowStep(node: Node, t0: nat, t: nat, lastToHeight: int, from: Option<int>, to: Option<int>,
                   from': Option<int>, to': Option<int>, cur: Bounds, narrowed: bool)
    requires 0 < t && Narrowed(node, t0, t - 1, lastToHeight, from, to, narrowed, from', to')
    requires cur.Window? && cur.begin < cur.end
    requires cur == ComputeBlockBounds(node.latest(t - 1), node.earliest(t - 1), lastToHeight, from', to')
    requires PrefixOfRequest(node, t0, t, lastToHeight, from, to, cur)
    ensures var mid := cur.begin + (cur.end - cur.begin) / 2;
            Narrowed(node, t0, t, lastToHeight, from, to, true, Some(cur.begin), Some(mid))
  {
    var mid := cur.begin + (cur.end - cur.begin) / 2;
    var s :| t0 <= s < t && cur.end <= Requested(node.latest(s), from, to).1;
    assert mid <= Requested(node.latest(s), from, to).1;
    if !Numeric(from) {
      SingleBlockWithoutStart(node.latest(t - 1), node.earliest(t - 1), lastToHeight, from, to);
    }
  }

  // ---------------------------------------------------------------- subscription

  /** Consecutive windows: each starts right after the one before. */
  ghost predicate Tiled(windows: seq<Bounds>) {
    && (forall i :: 0 <= i < |windows| ==> windows[i].Window? && 0 <= windows[i].begin <= windows[i].end)
    && (forall i :: 0 < i < |windows| ==> windows[i].begin == windows[i - 1].end + 1)
  }

  datatype Status = Waiting | Finished | Ended

  /** A request that overflows although it cannot be narrowed: a single block, unless it starts at the
      cursor. */
  ghost predicate OverflowInside(node: Node, t0: nat, t1: nat, lastToHeight: int, from: Option<int>, to: Option<int>) {
    exists q, lo, hi ::
      && t0 <= q < t1 && PrefixOfRequest(node, t0, t1, lastToHeight, from, to, Window(lo, hi))
      && node.Overflows(q, lo, hi) && (lastToHeight < lo ==> lo == hi)
  }

  lemma OverflowFound(node: Node, t0: nat, t1: nat, lastToHeight: int, from: Option<int>, to: Option<int>, w: Bounds,
                      q: nat)
    requires t0 <= q < t1 && PrefixOfRequest(node, t0, t1, lastToHeight, from, to, w)
    requires w.Window? && node.Overflows(q, w.begin, w.end) && (lastToHeight < w.begin ==> w.begin == w.end)
    ensures OverflowInside(node, t0, t1, lastToHeight, from, to)
  {
    hide PrefixOfRequest, Node.Overflows;
    assert w == Window(w.begin, w.end);
  }

  /** The state of one logs subscription between polls. */
  class LogSubscription {
    const node: Node
    const toBlock: Option<int>
    var begin: int
    var fromBlock: Option<int>
    var clock: nat
    var delivered: seq<Log>
    ghost var windows: seq<Bounds>   // the windows served so far
    ghost var queries: seq<nat>      // the query that served each of them
    ghost var shown: set<nat>        // the heights those queries could see

    ghost function Shown(): Chain
      reads this
    {
      ShownChain(node, shown)
    }

    /** The cursor closes the served windows, and the delivered logs are exactly those of the blocks
        the queries saw in them. */
    ghost predicate Valid()
      reads this
    {
      && node.Valid() && Tiled(windows) && |queries| == |windows|
      && (windows == [] ==> begin == 0 && delivered == [])
      && (windows != [] ==>
            && begin == windows[|windows| - 1].end && fromBlock == Some(begin + 1)
            && delivered == RangeLogs(Shown(), node.crit, windows[0].begin, begin + 1))
      && ShownRight(node, windows, queries, shown)
    }

    constructor (node: Node, fromBlock: Option<int>, toBlock: Option<int>)
      requires node.Valid()
      ensures Valid() && this.node == node && this.fromBlock == fromBlock && this.toBlock == toBlock
      ensures windows == []
    {
      this.node, this.toBlock, this.fromBlock := node, toBlock, fromBlock;
      begin, clock, delivered, windows, queries, shown := 0, 0, [], [], [], {};
    }

    /** One turn of the loop. A successful poll appends the next window. An error ends the loop and
        changes nothing; it comes from the node or from a request over the budget. A poll at which the
        safe latest height has not moved past the cursor ends the loop. */
    method Poll() returns (status: Status)
      requires Valid()
      modifies this
      ensures Valid() && clock > old(clock)
      ensures status.Ended? ==> windows == old(windows) && queries == old(queries) && delivered == old(delivered)
      ensures status.Ended? ==>
                || FaultInside(node, old(clock), clock, old(begin), old(fromBlock), toBlock)
                || OverflowInside(node, old(clock), clock, old(begin), old(fromBlock), toBlock)
      ensures !status.Ended? ==> |windows| == |old(windows)| + 1 && windows[..|old(windows)|] == old(windows)
      ensures !status.Ended? ==> queries[..|old(windows)|] == old(queries) && old(delivered) <= delivered
      ensures status.Finished? ==> toBlock.Some? && begin >= toBlock.value
      ensures old(windows) != [] && node.latest(old(clock)) <= old(begin) ==> status.Ended?
    {
      hide PrefixOfRequest, Node.Valid, FaultInside, OverflowInside, Node.Overflows, Tiled, ShownRight, RangeLogs,
           Node.Served, NextShown, ShownChain;
      if windows != [] {
        TiledStartsFirst(windows, |windows| - 1);
        PollNeedsNewBlock(node.latest(clock), node.earliest(clock), begin, toBlock);
      }
      var o, w, t, q := GetLogsWithBackoff(node, clock, fromBlock, toBlock, begin);
      if !o.Fetched? {
        if o.Overflow? {
          OverflowFound(node, clock, t, begin, fromBlock, toBlock, w, q);
        }
        clock := t;
        return Ended;
      }
      NextWindow(node, clock, t, begin, fromBlock, toBlock, w, windows);
      clock := t;
      ExtendShown(node, windows, queries, shown, w, q);
      shown := NextShown(node, shown, w, q);
      delivered := delivered + o.logs;
      windows := windows + [w];
      queries := queries + [q];
      begin := o.end;
      fromBlock := Some(o.end + 1);
      status := if toBlock.Some? && begin >= toBlock.value then Finished else Waiting;
    }
  }

  /** In each window, what is shown is what the query that served it could see. */
  ghost predicate ShownRight(node: Node, windows: seq<Bounds>, queries: seq<nat>, shown: set<nat>) {
    && |queries| == |windows| && (forall i :: 0 <= i < |windows| ==> windows[i].Window?)
    && forall i, h: nat :: 0 <= i < |windows| && windows[i].begin <= h <= windows[i].end && h in node.chain ==>
         (h in shown <==> h in node.Seen(queries[i]))
  }

  ghost function NextShown(node: Node, shown: set<nat>, w: Bounds, q: nat): set<nat>
    requires w.Window?
  {
    (set h | h in shown && !(w.begin <= h <= w.end)) + (set h | h in node.Seen(q) && w.begin <= h <= w.end)
  }

  /** A successful poll serves a non-empty window right behind the cursor. */
  lemma NextWindow(node: Node, t0: nat, t1: nat, begin: int, from: Option<int>, to: Option<int>, w: Bounds,
                   windows: seq<Bounds>)
    requires PrefixOfRequest(node, t0, t1, begin, from, to, w) && Tiled(windows)
    requires windows == [] ==> begin == 0
    requires windows != [] ==> begin == windows[|windows| - 1].end && from == Some(begin + 1)
    ensures Tiled(windows + [w]) && w.Window? && 0 <= w.begin <= w.end
    ensures windows != [] ==> w.begin == begin + 1
  {
  }

  ghost function ShownChain(node: Node, shown: set<nat>): Chain {
    map h | h in node.chain && h in shown :: node.chain[h]
  }

  lemma ExtendShown(node: Node, windows: seq<Bounds>, queries: seq<nat>, shown: set<nat>, w: Bounds, q: nat)
    requires w.Window? && 0 <= w.begin <= w.end && Tiled(windows + [w]) && ShownRight(node, windows, queries, shown)
    requires windows != [] ==> windows[0].Window? && 0 <= windows[0].begin
    ensures ShownRight(node, windows + [w], queries + [q], NextShown(node, shown, w, q))
    ensures var first, next := if windows == [] then w.begin else windows[0].begin, NextShown(node, shown, w, q);
            RangeLogs(ShownChain(node, next), node.crit, first, w.end + 1) ==
            (if windows == [] then [] else RangeLogs(ShownChain(node, shown), node.crit, windows[0].begin, w.begin))
            + node.Served(q, w.begin, w.end)
  {
    hide LogsAt, ShownRight, Tiled, RangeLogs, ShownChain, NextShown, Visible;
    TiledBefore(windows, w);
    ShownExtends(node, windows, queries, shown, w, q);
    ShownInside(node, shown, w, q);
    if windows != [] {
      assert windows[0].end < w.begin;
      ShownBefore(node, shown, w, q, windows[0].begin);
      RangeSplit(ShownChain(node, NextShown(node, shown, w, q)), node.crit, windows[0].begin, w.begin, w.end + 1);
    }
  }

  lemma ShownInside(node: Node, shown: set<nat>, w: Bounds, q: nat)
    requires w.Window? && 0 <= w.begin <= w.end
    ensures RangeLogs(ShownChain(node, NextShown(node, shown, w, q)), node.crit, w.begin, w.end + 1) ==
            node.Served(q, w.begin, w.end)
  {
    hide RangeLogs;
    RangeAgrees(ShownChain(node, NextShown(node, shown, w, q)), node.Seen(q), node.crit, w.begin, w.end + 1);
  }

  lemma ShownBefore(node: Node, shown: set<nat>, w: Bounds, q: nat, lo: nat)
    requires w.Window? && lo <= w.begin
    ensures RangeLogs(ShownChain(node, NextShown(node, shown, w, q)), node.crit, lo, w.begin) ==
            RangeLogs(ShownChain(node, shown), node.crit, lo, w.begin)
  {
    hide RangeLogs, Visible;
    RangeAgrees(ShownChain(node, NextShown(node, shown, w, q)), ShownChain(node, shown), node.crit, lo, w.begin);
  }

  lemma ShownExtends(node: Node, windows: seq<Bounds>, queries: seq<nat>, shown: set<nat>, w: Bounds, q: nat)
    requires w.Window? && ShownRight(node, windows, queries, shown)
    requires forall i :: 0 <= i < |windows| ==> windows[i].end < w.begin
    ensures ShownRight(node, windows + [w], queries + [q], NextShown(node, shown, w, q))
  {
    hide Visible;
  }

  /** Windows before the last one end before it begins. */
  lemma TiledBefore(windows: seq<Bounds>, w: Bounds)
    requires Tiled(windows + [w])
    ensures w.Window? && 0 <= w.begin <= w.end
    ensures forall i :: 0 <= i < |windows| ==> windows[i].Window? && 0 <= windows[i].begin <= windows[i].end < w.begin
  {
    var all := windows + [w];
    assert all[|windows|] == w;
    forall i | 0 <= i < |windows|
      ensures windows[i].Window? && 0 <= windows[i].begin <= windows[i].end < w.begin
    {
      assert all[i] == windows[i];
      TiledAscends(all, i, |windows|);
    }
  }

  lemma {:induction false} TiledAscends(windows: seq<Bounds>, i: nat, j: nat)
    requires Tiled(windows) && i < j < |windows|
    ensures windows[i].end < windows[j].begin
  {
    if i < j - 1 {
      TiledAscends(windows, i, j - 1);
    }
  }

  /** Every height of the tiled range lies in one of the windows. */
  lemma {:induction false} WindowOf(windows: seq<Bounds>, h: int, n: nat) returns (i: nat)
    requires Tiled(windows) && n < |windows| && windows[0].begin <= h <= windows[n].end
    ensures i <= n && windows[i].begin <= h <= windows[i].end
  {
    if windows[n].begin <= h {
      i := n;
    } else {
      i := WindowOf(windows, h, n - 1);
    }
  }

  /** All matching logs of the tiled range are shown exactly when every query was complete. */
  lemma CompleteExactly(node: Node, windows: seq<Bounds>, queries: seq<nat>, shown: set<nat>)
    requires Tiled(windows) && windows != [] && ShownRight(node, windows, queries, shown)
    ensures var lo, hi := windows[0].begin, windows[|windows| - 1].end;
            RangeLogs(ShownChain(node, shown), node.crit, lo, hi + 1) == node.LogsIn(lo, hi)
            <==> forall i :: 0 <= i < |windows| ==> node.Complete(queries[i], windows[i].begin, windows[i].end)
  {
    hide LogsAt, RangeLogs, Tiled, Node.Complete, Visible;
    var lo, hi := windows[0].begin, windows[|windows| - 1].end;
    TiledStartsFirst(windows, |windows| - 1);
    SubchainExactly(ShownChain(node, shown), node.chain, node.crit, lo, hi + 1);
    if forall i :: 0 <= i < |windows| ==> node.Complete(queries[i], windows[i].begin, windows[i].end) {
      forall h: nat | lo <= h < hi + 1 && h !in ShownChain(node, shown)
        ensures LogsAt(node.chain, node.crit, h) == []
      {
        var i := WindowOf(windows, h, |windows| - 1);
        HiddenHasNoMatch(node, windows, queries, shown, i, h);
      }
    }
    if LacksNoMatch(ShownChain(node, shown), node.chain, node.crit, lo, hi + 1) {
      forall i | 0 <= i < |windows|
        ensures node.Complete(queries[i], windows[i].begin, windows[i].end)
      {
        WindowComplete(node, windows, queries, shown, i);
      }
    }
  }

  lemma HiddenHasNoMatch(node: Node, windows: seq<Bounds>, queries: seq<nat>, shown: set<nat>, i: nat, h: nat)
    requires Tiled(windows) && ShownRight(node, windows, queries, shown) && i < |windows|
    requires windows[i].begin <= h <= windows[i].end && h !in ShownChain(node, shown)
    requires node.Complete(queries[i], windows[i].begin, windows[i].end)
    ensures LogsAt(node.chain, node.crit, h) == []
  {
    hide MatchingLogs;
  }

  lemma WindowComplete(node: Node, windows: seq<Bounds>, queries: seq<nat>, shown: set<nat>, i: nat)
    requires Tiled(windows) && ShownRight(node, windows, queries, shown) && i < |windows|
    requires windows[0].begin >= 0
    requires LacksNoMatch(ShownChain(node, shown), node.chain, node.crit, windows[0].begin,
             windows[|windows| - 1].end + 1)
    ensures node.Complete(queries[i], windows[i].begin, windows[i].end)
  {
    hide MatchingLogs;
    if 0 < i {
      TiledAscends(windows, 0, i);
    }
    if i < |windows| - 1 {
      TiledAscends(windows, i, |windows| - 1);
    }
    assert windows[i].begin <= windows[i].end;
  }

  lemma {:induction false} TiledStartsFirst(windows: seq<Bounds>, i: nat)
    requires Tiled(windows) && i < |windows|
    ensures windows[0].Window? && windows[i].Window? && 0 <= windows[0].begin <= windows[i].end
  {
    if i > 0 {
      TiledStartsFirst(windows, i - 1);
    }
  }

  /** Over any number of polls, with any node behaviour in between, the windows tile the range from the
      first one on, the delivered logs strictly ascend, and every matching log of that range is among
      them exactly when no poll passed over a block that has one. */
  method RunSubscription(sub: LogSubscription, polls: nat) returns (status: Status)
    requires sub.Valid()
    modifies sub
    ensures sub.Valid() && Tiled(sub.windows) && StrictlySorted(sub.delivered) && |sub.queries| == |sub.windows|
    ensures sub.windows != [] ==>
              (sub.delivered == sub.node.LogsIn(sub.windows[0].begin, sub.begin) <==>
               forall i :: 0 <= i < |sub.windows| ==>
                 sub.node.Complete(sub.queries[i], sub.windows[i].begin, sub.windows[i].end))
  {
    status := Waiting;
    for i := 0 to polls
      invariant sub.Valid()
    {
      hide *;
      status := sub.Poll();
      if !status.Waiting? {
        break;
      }
    }
    DeliveredExactly(sub);
  }

  lemma DeliveredExactly(sub: LogSubscription)
    requires sub.Valid()
    ensures Tiled(sub.windows) && StrictlySorted(sub.delivered) && |sub.queries| == |sub.windows|
    ensures forall i :: 0 <= i < |sub.windows| ==> sub.windows[i].Window?
    ensures sub.windows != [] ==>
              (sub.delivered == sub.node.LogsIn(sub.windows[0].begin, sub.begin) <==>
               forall i :: 0 <= i < |sub.windows| ==>
                 sub.node.Complete(sub.queries[i], sub.windows[i].begin, sub.windows[i].end))
  {
    assert sub.windows == [] ==> StrictlySorted(sub.delivered);
    hide RangeLogs, WellFormed, LogsAt, StrictlySorted, Node.Complete, Node.LogsIn;
    if sub.windows != [] {
      TiledStartsFirst(sub.windows, |sub.windows| - 1);
      CompleteExactly(sub.node, sub.windows, sub.queries, sub.shown);
      SubchainWellFormed(sub.node.hash, sub.Shown(), sub.node.chain);
      RangeOrdered(sub.node.hash, sub.Shown(), sub.node.crit, sub.windows[0].begin, sub.begin + 1);
    }
  }

  /** A poll behind the cursor finds a window only when the safe latest height moved past the cursor,
      and without an upper bound also whenever it did. */
  lemma PollNeedsNewBlock(latest: int, earliest: int, cursor: int, to: Option<int>)
    requires 0 <= cursor
    ensures ComputeBlockBounds(latest, earliest, cursor, Some(cursor + 1), to).Window? ==> cursor < latest
    ensures to == None && earliest <= cursor + 1 ==>
              (ComputeBlockBounds(latest, earliest, cursor, Some(cursor + 1), to).Window? <==> cursor < latest)
  {
  }
}
