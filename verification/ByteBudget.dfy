/** The request byte budget (evmrpc/request_limiter.go): a semaphore shared by all requests and
    charged in batches while their bodies are read. */
module ByteBudget {

  const BATCH := 64 * 1024
  const DEFAULT_MAX_BODY := 5 * 1024 * 1024
  const TOO_MANY_REQUESTS := 429
  const REQUEST_TIMEOUT := 408
  const TOO_LARGE := 413

  datatype Limits = NoBudget(maxBody: nat) | Budget(maxBody: nat, capacity: nat)

  /** newRequestSizeLimiter: the budget always admits one request of maximal size. */
  function NewLimits(maxBody: int, maxConcurrentBytes: int): (l: Limits)
    ensures l.maxBody > 0 && (l.Budget? ==> l.maxBody <= l.capacity && maxConcurrentBytes <= l.capacity)
    ensures l.Budget? <==> maxConcurrentBytes > 0
  {
    var m := if maxBody <= 0 then DEFAULT_MAX_BODY else maxBody;
    if maxConcurrentBytes <= 0 then NoBudget(m)
    else Budget(m, if maxConcurrentBytes < m then m else maxConcurrentBytes)
  }

  /** How one read of the inner body ended. */
  datatype ReadEnd = More | Eof | IdleTimeout | OtherError

  /** The whole batches in `unbilled` fit on top of `cur`. */
  predicate FitsBatches(cur: nat, unbilled: nat, size: nat) {
    unbilled < BATCH || cur + BATCH * (unbilled / BATCH) <= size
  }

  /** What one body holds: bytes reserved and not yet billed, whether it is open, and the outcome
      recorded for the request (0 for none). */
  datatype Account = Account(reserved: nat, unbilled: nat, open: bool, outcome: nat)

  /** The first outcome recorded stands. */
  function Recorded(a: Account, code: nat): Account {
    if a.outcome == 0 then a.(outcome := code) else a
  }

  function Failed(a: Account, code: nat): Account {
    Recorded(a.(reserved := 0, unbilled := 0, open := false), code)
  }

  /** One undisturbed Read on a semaphore of the given size that holds `cur`. */
  function ReadEffect(size: nat, cur: nat, a: Account, n: nat, end: ReadEnd): Account {
    var bytes := a.unbilled + n;
    if !FitsBatches(cur, bytes, size) then Failed(a, TOO_MANY_REQUESTS)
    else
      match end
      case More => a.(reserved := a.reserved + BATCH * (bytes / BATCH), unbilled := bytes % BATCH)
      case Eof =>
        if cur + bytes <= size then a.(reserved := a.reserved + bytes, unbilled := 0)
        else Failed(a, TOO_MANY_REQUESTS)
      case IdleTimeout => Failed(a, REQUEST_TIMEOUT)
      case OtherError => a.(reserved := 0, unbilled := 0)
  }

  /** One undisturbed Close. */
  function CloseEffect(size: nat, cur: nat, a: Account): Account {
    if !a.open then a
    else if cur + a.unbilled <= size then a.(reserved := a.reserved + a.unbilled, unbilled := 0, open := false)
    else Recorded(a.(open := false), TOO_MANY_REQUESTS)
  }

  // ---------------------------------------------------------------- one request

  class Semaphore {
    const size: nat
    var cur: nat

    ghost predicate Valid()
      reads this
    {
      cur <= size
    }

    method TryAcquire(n: nat) returns (ok: bool)
      requires Valid()
      modifies this
      ensures Valid() && ok == (old(cur) + n <= size) && cur == old(cur) + if ok then n else 0
    {
      ok := size - cur >= n;
      if ok {
        cur := cur + n;
      }
    }

    /** The library panics when more is released than held. */
    method Release(n: nat)
      requires Valid() && n <= cur
      modifies this
      ensures Valid() && cur == old(cur) - n
    {
      cur := cur - n;
    }
  }

  class BudgetBody {
    const budget: Semaphore
    var open: bool
    var reserved: nat
    var unbilled: nat
    var outcome: nat

    constructor (budget: Semaphore)
      requires budget.Valid()
      ensures this.budget == budget && Valid() && Snapshot() == Account(0, 0, true, 0)
    {
      this.budget := budget;
      open, reserved, unbilled, outcome := true, 0, 0, 0;
    }

    ghost predicate Valid()
      reads this, budget
    {
      budget.Valid() && reserved <= budget.cur
    }

    function Snapshot(): Account
      reads this
    {
      Account(reserved, unbilled, open, outcome)
    }

    /** What the other requests hold. */
    ghost function Others(): int
      reads this, budget
    {
      budget.cur - reserved
    }

    /** Bills the whole batches, as long as they fit. */
    method Charge(n: nat) returns (ok: bool)
      requires Valid()
      modifies this, budget
      ensures Valid() && Others() == old(Others()) && open == old(open) && outcome == old(outcome)
      ensures reserved + unbilled == old(reserved + unbilled) + n
      ensures ok <==> FitsBatches(old(budget.cur), old(unbilled) + n, budget.size)
      ensures ok ==> unbilled == (old(unbilled) + n) % BATCH
    {
      unbilled := unbilled + n;
      ghost var batches := 0;
      while unbilled >= BATCH
        invariant reserved == old(reserved) + BATCH * batches && batches <= (old(unbilled) + n) / BATCH
        invariant Valid() && Others() == old(Others()) && open == old(open) && outcome == old(outcome)
        invariant reserved + unbilled == old(reserved + unbilled) + n
      {
        var got := budget.TryAcquire(BATCH);
        if !got {
          return false;
        }
        reserved := reserved + BATCH;
        unbilled := unbilled - BATCH;
        batches := batches + 1;
      }
      return true;
    }

    /** Bills the rest, if it fits. */
    method Flush() returns (ok: bool)
      requires Valid()
      modifies this, budget
      ensures Valid() && Others() == old(Others()) && open == old(open) && outcome == old(outcome)
      ensures reserved + unbilled == old(reserved + unbilled)
      ensures ok <==> old(budget.cur) + old(unbilled) <= budget.size
      ensures unbilled == if ok then 0 else old(unbilled)
    {
      if unbilled == 0 {
        return true;
      }
      var got := budget.TryAcquire(unbilled);
      if !got {
        return false;
      }
      reserved := reserved + unbilled;
      unbilled := 0;
      return true;
    }

    method ReleaseAll()
      requires Valid()
      modifies this, budget
      ensures Valid() && Others() == old(Others()) && Snapshot() == old(Snapshot()).(reserved := 0, unbilled := 0)
    {
      if reserved > 0 {
        budget.Release(reserved);
        reserved := 0;
      }
      unbilled := 0;
    }

    method SetOutcome(code: nat)
      modifies this`outcome
      ensures Snapshot() == Recorded(old(Snapshot()), code)
    {
      if outcome == 0 {
        outcome := code;
      }
    }

    method Fail(code: nat)
      requires Valid()
      modifies this, budget
      ensures Valid() && Others() == old(Others()) && Snapshot() == Failed(old(Snapshot()), code)
    {
      ReleaseAll();
      open := false;
      SetOutcome(code);
    }

    /** Read, given what the inner body returned; `ok` when the caller sees no budget or timeout error. */
    method Read(n: nat, end: ReadEnd) returns (ok: bool)
      requires Valid() && open && unbilled < BATCH
      modifies this, budget
      ensures Valid() && Others() == old(Others()) && unbilled < BATCH
      ensures Snapshot() == ReadEffect(budget.size, old(budget.cur), old(Snapshot()), n, end)
      ensures ok == open
    {
      if n > 0 {
        var charged := Charge(n);
        if !charged {
          Fail(TOO_MANY_REQUESTS);
          return false;
        }
      }
      match end {
        case More =>
        case Eof =>
          var flushed := Flush();
          if !flushed {
            Fail(TOO_MANY_REQUESTS);
            return false;
          }
        case IdleTimeout =>
          Fail(REQUEST_TIMEOUT);
          return false;
        case OtherError =>
          ReleaseAll();
      }
      return true;
    }

    method Close()
      requires Valid()
      modifies this, budget
      ensures Valid() && Others() == old(Others())
      ensures Snapshot() == CloseEffect(budget.size, old(budget.cur), old(Snapshot()))
    {
      if !open {
        return;
      }
      open := false;
      var flushed := Flush();
      if !flushed {
        SetOutcome(TOO_MANY_REQUESTS);
      }
    }
  }

  /** What the inner handler does before it returns or panics. A flush, or any other use of the wrapped
      writer behind the capturing one, reaches the client whatever the outcome. */
  datatype HandlerStep = ReadStep(n: nat, end: ReadEnd) | CloseStep | WriteStep | FlushStep

  /** The account, and whether the response is begun, after the first n steps of a handler; the other
      requests hold `others` throughout. */
  function Handled(size: nat, others: nat, handler: seq<HandlerStep>, n: nat): (Account, bool)
    requires n <= |handler|
  {
    if n == 0 then (Account(0, 0, true, 0), false)
    else
      var (a, begun) := Handled(size, others, handler, n - 1);
      match handler[n - 1]
      case ReadStep(k, end) => (if a.open then ReadEffect(size, others + a.reserved, a, k, end) else a, begun)
      case CloseStep => (CloseEffect(size, others + a.reserved, a), begun)
      case WriteStep => (a, begun || a.outcome == 0)
      case FlushStep => (a, true)
  }

  /** ServeHTTP around any inner handler: no byte stays reserved, and the client sees the recorded
      outcome as its status exactly when the handler returned, an outcome was recorded by then, and the
      response was not begun. */
  method ServeHTTP(maxBody: nat, contentLength: int, budget: Semaphore, handler: seq<HandlerStep>, panics: bool)
    returns (status: nat)
    requires budget.Valid()
    modifies budget
    ensures budget.Valid() && budget.cur == old(budget.cur)
    ensures status == var (a, begun) := Handled(budget.size, old(budget.cur), handler, |handler|);
                      if contentLength > maxBody then TOO_LARGE else if panics || begun then 0 else a.outcome
  {
    if contentLength > maxBody {
      return TOO_LARGE;
    }
    var body := new BudgetBody(budget);
    var wroteHeader, flushed := false, false;
    for k := 0 to |handler|
      invariant body.Valid() && body.unbilled < BATCH
      invariant fresh(body) && body.budget == budget && body.Others() == old(budget.cur)
      invariant (body.Snapshot(), wroteHeader || flushed) == Handled(budget.size, old(budget.cur), handler, k)
    {
      match handler[k] {
        case CloseStep => body.Close();
        case ReadStep(n, end) =>
          if body.open {
            var ok := body.Read(n, end);
          }
        case WriteStep =>
          if body.outcome == 0 {
            wroteHeader := true;
          }
        case FlushStep => flushed := true;
      }
    }
    status := 0;
    if !panics && body.outcome != 0 && !wroteHeader {
      // A flushed response has its status on the wire already, and a second one changes nothing.
      status := if flushed then 0 else body.outcome;
    }
    body.Close();
    body.ReleaseAll();
  }

  function BytesOf(handler: seq<HandlerStep>, n: nat): nat
    requires n <= |handler|
  {
    if n == 0 then 0 else BytesOf(handler, n - 1) + if handler[n - 1].ReadStep? then handler[n - 1].n else 0
  }

  lemma ReadReason(size: nat, cur: nat, a: Account, n: nat, end: ReadEnd)
    ensures var b := ReadEffect(size, cur, a, n, end);
            && b.reserved + b.unbilled <= a.reserved + a.unbilled + n
            && (b.outcome == a.outcome
                || (b.outcome == TOO_MANY_REQUESTS && cur + a.unbilled + n > size)
                || (b.outcome == REQUEST_TIMEOUT && end.IdleTimeout?))
  {
  }

  lemma CloseReason(size: nat, cur: nat, a: Account)
    ensures var b := CloseEffect(size, cur, a);
            && b.reserved + b.unbilled == a.reserved + a.unbilled
            && (b.outcome == a.outcome || (b.outcome == TOO_MANY_REQUESTS && cur + a.unbilled > size))
  {
  }

  /** An outcome has its reason: more bytes than the budget has free, or a stalled read. */
  lemma {:induction false} OutcomeHasReason(size: nat, others: nat, handler: seq<HandlerStep>, n: nat)
    requires n <= |handler|
    ensures var (a, _) := Handled(size, others, handler, n);
            && a.reserved + a.unbilled <= BytesOf(handler, n) && a.outcome in {0, TOO_MANY_REQUESTS, REQUEST_TIMEOUT}
            && (a.outcome == TOO_MANY_REQUESTS ==> others + BytesOf(handler, n) > size)
            && (a.outcome == REQUEST_TIMEOUT ==>
                  exists k :: 0 <= k < n && handler[k].ReadStep? && handler[k].end.IdleTimeout?)
  {
    hide ReadEffect, CloseEffect;
    if n > 0 {
      OutcomeHasReason(size, others, handler, n - 1);
      var (a, _) := Handled(size, others, handler, n - 1);
      match handler[n - 1]
      case ReadStep(k, end) => ReadReason(size, others + a.reserved, a, k, end);
      case CloseStep => CloseReason(size, others + a.reserved, a);
      case WriteStep | FlushStep =>
    }
  }

  // ---------------------------------------------------------------- interleaved requests

  /** Where a request is between two operations on the semaphore. */
  datatype Pc =
    | Idle
    | Charging(end: ReadEnd)
    | FlushingRead
    | FlushingClose(exiting: bool)
    | Failing(code: nat)
    | Releasing
    | Exiting
    | Exited

  /** A request: `read` counts its bytes since the last release, `total` all of them, `wrote` says that
      the handler wrote before an outcome was recorded, `flushed` that it flushed, and `reported` is the
      status that the client sees from ServeHTTP itself (0 for none). */
  datatype Request = Request(
    account: Account, read: nat, total: nat, pc: Pc, wrote: bool, flushed: bool, reported: nat)

  datatype State = State(used: nat, requests: seq<Request>)

  datatype Action =
    | Arrive                         // ServeHTTP wraps a new body
    | ReadBytes(n: nat, end: ReadEnd)
    | Step                           // the next semaphore operation or local branch
    | CloseBody                      // the inner handler closes the body
    | Write                          // the inner handler writes its response
    | FlushResponse                  // the inner handler flushes or takes the wrapped writer over
    | Return                         // the inner handler returns
    | Panic                          // the inner handler panics

  datatype Event = Event(who: nat, action: Action)

  const NEW := Request(Account(0, 0, true, 0), 0, 0, Idle, false, false, 0)

  predicate CanAct(l: Limits, r: Request, a: Action) {
    match a
    case ReadBytes(n, _) => r.pc.Idle? && r.account.open && r.total + n <= l.maxBody
    case CloseBody => r.pc.Idle? && r.account.open
    case Write => r.pc.Idle?
    case FlushResponse => r.pc.Idle?
    case Return => r.pc.Idle?
    case Panic => r.pc.Idle?
    case Step => !r.pc.Idle? && !r.pc.Exited?
    case Arrive => false
  }

  predicate Enabled(l: Limits, s: State, e: Event) {
    if e.action.Arrive? then e.who == |s.requests| else e.who < |s.requests| && CanAct(l, s.requests[e.who], e.action)
  }

  function AfterCharging(end: ReadEnd): Pc {
    match end
    case More => Idle
    case Eof => FlushingRead
    case IdleTimeout => Failing(REQUEST_TIMEOUT)
    case OtherError => Releasing
  }

  /** One request's next semaphore operation on a semaphore that holds `used`. */
  function StepOf(l: Limits, used: nat, r: Request): Request
    requires l.Budget?
  {
    var a := r.account;
    match r.pc
    case Charging(end) =>
      if a.unbilled >= BATCH then
        if used + BATCH <= l.capacity then
          r.(account := a.(reserved := a.reserved + BATCH, unbilled := a.unbilled - BATCH))
        else r.(pc := Failing(TOO_MANY_REQUESTS))
      else
        r.(pc := AfterCharging(end))
    case FlushingRead =>
      if used + a.unbilled <= l.capacity then
        r.(account := a.(reserved := a.reserved + a.unbilled, unbilled := 0), pc := Idle)
      else r.(pc := Failing(TOO_MANY_REQUESTS))
    case FlushingClose(exiting) =>
      var next := if exiting then Exiting else Idle;
      if used + a.unbilled <= l.capacity then
        r.(account := a.(reserved := a.reserved + a.unbilled, unbilled := 0), pc := next)
      else r.(account := Recorded(a, TOO_MANY_REQUESTS), pc := next)
    case Failing(code) => r.(account := Failed(a, code), read := 0, pc := Idle)
    case Releasing => r.(account := a.(reserved := 0, unbilled := 0), read := 0, pc := Idle)
    case Exiting => r.(account := a.(reserved := 0, unbilled := 0), read := 0, pc := Exited)
    case Idle => r
    case Exited => r
  }

  /** The deferred close and release of ServeHTTP. */
  function Exit(r: Request): Request {
    r.(pc := if r.account.open then FlushingClose(true) else Exiting, account := r.account.(open := false))
  }

  function Act(l: Limits, used: nat, r: Request, a: Action): Request
    requires l.Budget?
  {
    match a
    case ReadBytes(n, end) =>
      r.(account := r.account.(unbilled := r.account.unbilled + n), pc := Charging(end),
         read := r.read + n, total := r.total + n)
    case CloseBody => r.(account := r.account.(open := false), pc := FlushingClose(false))
    case Write => r.(wrote := r.wrote || r.account.outcome == 0)
    case FlushResponse => r.(flushed := true)
    case Return => Exit(r.(reported := if r.wrote || r.flushed then 0 else r.account.outcome))
    case Panic => Exit(r)
    case Step => StepOf(l, used, r)
    case Arrive => r
  }

  /** The semaphore moves by what the acting request reserves or gives back. */
  function Next(l: Limits, s: State, e: Event): State
    requires l.Budget? && Enabled(l, s, e)
  {
    if e.action.Arrive? then s.(requests := s.requests + [NEW])
    else
      var before, after := s.requests[e.who], Act(l, s.used, s.requests[e.who], e.action);
      var used := s.used + after.account.reserved - before.account.reserved;
      State(if used < 0 then 0 else used, s.requests[e.who := after])
  }

  ghost predicate Run(l: Limits, events: seq<Event>, states: seq<State>) {
    && l.Budget? && |states| == |events| + 1 && states[0] == State(0, [])
    && forall i {:trigger events[i]} :: 0 <= i < |events| ==>
         Enabled(l, states[i], events[i]) && states[i + 1] == Next(l, states[i], events[i])
  }

  lemma RunStep(l: Limits, events: seq<Event>, states: seq<State>, n: nat)
    requires Run(l, events, states) && n < |events|
    ensures |states| == |events| + 1 && l.Budget?
    ensures Enabled(l, states[n], events[n]) && states[n + 1] == Next(l, states[n], events[n])
  {
  }

  function TotalReserved(rs: seq<Request>): nat {
    if rs == [] then 0 else TotalReserved(rs[..|rs| - 1]) + rs[|rs| - 1].account.reserved
  }

  lemma {:induction false} TotalAfter(rs: seq<Request>, i: nat, r: Request)
    requires i < |rs|
    ensures TotalReserved(rs[i := r]) == TotalReserved(rs) - rs[i].account.reserved + r.account.reserved
    ensures rs[i].account.reserved <= TotalReserved(rs)
  {
    var n := |rs| - 1;
    if i < n {
      TotalAfter(rs[..n], i, r);
      assert rs[i := r][..n] == rs[..n][i := r];
    } else {
      assert rs[i := r][..n] == rs[..n];
    }
  }

  lemma {:induction false} OnlyHolder(rs: seq<Request>, i: nat)
    requires i < |rs| && forall j :: 0 <= j < |rs| && j != i ==> rs[j].account.reserved == 0
    ensures TotalReserved(rs) == rs[i].account.reserved
  {
    var n := |rs| - 1;
    if i < n {
      OnlyHolder(rs[..n], i);
    } else {
      NoHolder(rs[..n]);
    }
  }

  lemma {:induction false} NoHolder(rs: seq<Request>)
    requires forall j :: 0 <= j < |rs| ==> rs[j].account.reserved == 0
    ensures TotalReserved(rs) == 0
  {
    if rs != [] {
      NoHolder(rs[..|rs| - 1]);
    }
  }

  /** Every byte read since the last release is reserved or waits for a batch; between reads less
      than one batch waits; a request that is over holds nothing. */
  ghost predicate Accounted(l: Limits, r: Request) {
    && r.account.reserved + r.account.unbilled == r.read <= r.total <= l.maxBody
    && (!r.pc.Charging? && !r.pc.Failing? ==> r.account.unbilled < BATCH)
    && (r.pc.Exited? ==> r.account.reserved == 0 && r.account.unbilled == 0)
    && (r.pc.FlushingClose? || r.pc.Exiting? || r.pc.Exited? ==> !r.account.open)
  }

  ghost predicate Invariant(l: Limits, s: State) {
    && s.used == TotalReserved(s.requests) && (l.Budget? ==> s.used <= l.capacity)
    && forall i :: 0 <= i < |s.requests| ==> Accounted(l, s.requests[i])
  }

  lemma ChargeStep(l: Limits, used: nat, r: Request)
    requires l.Budget? && Accounted(l, r) && r.account.reserved <= used <= l.capacity && r.pc.Charging?
    ensures var r' := StepOf(l, used, r);
            Accounted(l, r') && 0 <= used + r'.account.reserved - r.account.reserved <= l.capacity
  {
  }

  lemma OtherStep(l: Limits, used: nat, r: Request)
    requires l.Budget? && Accounted(l, r) && r.account.reserved <= used <= l.capacity && !r.pc.Charging?
    ensures var r' := StepOf(l, used, r);
            Accounted(l, r') && 0 <= used + r'.account.reserved - r.account.reserved <= l.capacity
  {
  }

  lemma ActStep(l: Limits, used: nat, r: Request, a: Action)
    requires l.Budget? && Accounted(l, r) && r.account.reserved <= used <= l.capacity && CanAct(l, r, a)
    ensures var r' := Act(l, used, r, a);
            Accounted(l, r') && 0 <= used + r'.account.reserved - r.account.reserved <= l.capacity
  {
    hide StepOf;
    if a.Step? {
      if r.pc.Charging? {
        ChargeStep(l, used, r);
      } else {
        OtherStep(l, used, r);
      }
    }
  }

  lemma NextStep(l: Limits, s: State, e: Event)
    requires l.Budget? && Invariant(l, s) && Enabled(l, s, e)
    ensures Invariant(l, Next(l, s, e))
  {
    hide Accounted, Act, CanAct;
    if e.action.Arrive? {
      assert (s.requests + [NEW])[..|s.requests|] == s.requests;
      NewAccounted(l);
    } else {
      var r := s.requests[e.who];
      TotalAfter(s.requests, e.who, Act(l, s.used, r, e.action));
      ActStep(l, s.used, r, e.action);
    }
  }

  lemma NewAccounted(l: Limits)
    ensures Accounted(l, NEW)
  {
  }

  /** Over every interleaving the semaphore holds exactly the sum of the reservations and never more
      than its capacity, and each request's bytes are accounted for. */
  lemma {:induction false} Conservation(l: Limits, events: seq<Event>, states: seq<State>, n: nat)
    requires Run(l, events, states) && n <= |events|
    ensures Invariant(l, states[n])
  {
    if n > 0 {
      hide Run, Invariant, Next, Enabled;
      RunStep(l, events, states, n - 1);
      Conservation(l, events, states, n - 1);
      NextStep(l, states[n - 1], events[n - 1]);
    } else {
      assert TotalReserved([]) == 0;
    }
  }

  /** No release gives back more than is held, and once every request is over nothing is held. */
  lemma NothingLeaks(l: Limits, events: seq<Event>, states: seq<State>, n: nat)
    requires Run(l, events, states) && n <= |events|
    ensures forall i :: 0 <= i < |states[n].requests| ==> states[n].requests[i].account.reserved <= states[n].used
    ensures (forall i :: 0 <= i < |states[n].requests| ==> states[n].requests[i].pc.Exited?) ==> states[n].used == 0
  {
    Conservation(l, events, states, n);
    hide Run;
    var rs := states[n].requests;
    forall i | 0 <= i < |rs|
      ensures rs[i].account.reserved <= states[n].used
    {
      TotalAfter(rs, i, rs[i]);
    }
    if forall i :: 0 <= i < |rs| ==> rs[i].pc.Exited? {
      NoHolder(rs);
    }
  }

  predicate TurnedAway(r: Request) {
    r.account.outcome == TOO_MANY_REQUESTS || r.pc == Failing(TOO_MANY_REQUESTS)
  }

  /** The only request that holds bytes is never turned away by the budget. */
  lemma {:induction false} LoneRequestAdmitted(l: Limits, events: seq<Event>, states: seq<State>, who: nat, n: nat)
    requires Run(l, events, states) && n <= |events| && l.maxBody <= l.capacity
    requires forall k, j :: 0 <= k <= n && 0 <= j < |states[k].requests| && j != who ==>
             states[k].requests[j].account.reserved == 0
    ensures who < |states[n].requests| ==> !TurnedAway(states[n].requests[who])
  {
    if n > 0 {
      hide Run, Invariant, Next, Enabled, TurnedAway;
      RunStep(l, events, states, n - 1);
      LoneRequestAdmitted(l, events, states, who, n - 1);
      Conservation(l, events, states, n - 1);
      LoneStep(l, states[n - 1], events[n - 1], who);
    }
  }

  lemma LoneStep(l: Limits, s: State, e: Event, who: nat)
    requires l.Budget? && Invariant(l, s) && Enabled(l, s, e) && l.maxBody <= l.capacity
    requires forall j :: 0 <= j < |s.requests| && j != who ==> s.requests[j].account.reserved == 0
    requires who < |s.requests| ==> !TurnedAway(s.requests[who])
    ensures who < |Next(l, s, e).requests| ==> !TurnedAway(Next(l, s, e).requests[who])
  {
    if who < |s.requests| {
      OnlyHolder(s.requests, who);
      assert Accounted(l, s.requests[who]);
    }
  }

  // ---------------------------------------------------------------- what the client is told

  /** The handler returned at a moment at which an outcome was recorded. */
  ghost predicate ReturnedAfterOutcome(events: seq<Event>, states: seq<State>, who: nat, n: nat)
    requires n <= |events| < |states|
  {
    exists i {:trigger events[i]} ::
      && 0 <= i < n && events[i] == Event(who, Return)
      && who < |states[i].requests| && states[i].requests[who].account.outcome != 0
  }

  /** The handler began its response at a moment at which no outcome was recorded. */
  ghost predicate WroteBeforeOutcome(events: seq<Event>, states: seq<State>, who: nat, n: nat)
    requires n <= |events| < |states|
  {
    exists i {:trigger events[i]} ::
      && 0 <= i < n && events[i] == Event(who, Write)
      && who < |states[i].requests| && states[i].requests[who].account.outcome == 0
  }

  /** The handler flushed; after it has returned it cannot. */
  ghost predicate Flushed(events: seq<Event>, who: nat, n: nat)
    requires n <= |events|
  {
    exists i {:trigger events[i]} :: 0 <= i < n && events[i] == Event(who, FlushResponse)
  }

  predicate Leaving(pc: Pc) {
    pc == FlushingClose(true) || pc.Exiting? || pc.Exited?
  }

  /** What a request remembers of its run. */
  ghost predicate Remembers(events: seq<Event>, states: seq<State>, who: nat, n: nat)
    requires n <= |events| < |states| && who < |states[n].requests|
  {
    var r := states[n].requests[who];
    && r.wrote == WroteBeforeOutcome(events, states, who, n) && r.flushed == Flushed(events, who, n)
    && (ReturnedAfterOutcome(events, states, who, n) ==> Leaving(r.pc))
    && (r.reported != 0 <==>
          && ReturnedAfterOutcome(events, states, who, n)
          && !WroteBeforeOutcome(events, states, who, n) && !Flushed(events, who, n))
    && (r.reported != 0 ==> r.reported == r.account.outcome)
  }

  lemma PredicatesStep(events: seq<Event>, states: seq<State>, who: nat, n: nat)
    requires n < |events| < |states|
    ensures ReturnedAfterOutcome(events, states, who, n + 1) <==>
              || ReturnedAfterOutcome(events, states, who, n)
              || (&& events[n] == Event(who, Return)
                  && who < |states[n].requests| && states[n].requests[who].account.outcome != 0)
    ensures WroteBeforeOutcome(events, states, who, n + 1) <==>
              || WroteBeforeOutcome(events, states, who, n)
              || (&& events[n] == Event(who, Write)
                  && who < |states[n].requests| && states[n].requests[who].account.outcome == 0)
    ensures Flushed(events, who, n + 1) <==> Flushed(events, who, n) || events[n] == Event(who, FlushResponse)
  {
    assert events[n] == events[n];
  }

  /** Nothing is remembered of a request that has not arrived. */
  lemma {:induction false} NothingBeforeArrival(l: Limits, events: seq<Event>, states: seq<State>, who: nat, n: nat)
    requires Run(l, events, states) && n <= |events| && |states[n].requests| <= who
    ensures !ReturnedAfterOutcome(events, states, who, n) && !WroteBeforeOutcome(events, states, who, n)
    ensures !Flushed(events, who, n)
  {
    if n > 0 {
      hide Run, ReturnedAfterOutcome, WroteBeforeOutcome, Flushed;
      RunStep(l, events, states, n - 1);
      NothingBeforeArrival(l, events, states, who, n - 1);
      PredicatesStep(events, states, who, n - 1);
    }
  }

  lemma OutcomeStep(l: Limits, used: nat, r: Request, a: Action)
    requires l.Budget? && CanAct(l, r, a)
    ensures var r' := Act(l, used, r, a);
            && (r.account.outcome != 0 ==> r'.account.outcome == r.account.outcome)
            && r'.wrote == (r.wrote || (a.Write? && r.account.outcome == 0))
            && r'.flushed == (r.flushed || a.FlushResponse?)
            && (Leaving(r.pc) ==> Leaving(r'.pc) && !a.Return?) && (a.Return? ==> Leaving(r'.pc))
            && r'.reported == if !a.Return? then r.reported else if r.wrote || r.flushed then 0 else r.account.outcome
  {
  }

  /** Over every run: the client is told the recorded outcome exactly when the handler returned after
      it was recorded, had not written before it was recorded, and had not flushed at all. */
  lemma {:induction false} AnsweredExactly(l: Limits, events: seq<Event>, states: seq<State>, who: nat, n: nat)
    requires Run(l, events, states) && n <= |events| && who < |states[n].requests|
    ensures Remembers(events, states, who, n)
  {
    hide Run, ReturnedAfterOutcome, WroteBeforeOutcome, Flushed, Act, Leaving;
    if n == 0 {
      NoRequests(l, events, states);
    } else {
      RunStep(l, events, states, n - 1);
      PredicatesStep(events, states, who, n - 1);
      var s, e := states[n - 1], events[n - 1];
      if |s.requests| <= who {
        NothingBeforeArrival(l, events, states, who, n - 1);
      } else {
        AnsweredExactly(l, events, states, who, n - 1);
        if e.who == who {
          OutcomeStep(l, s.used, s.requests[who], e.action);
          LeavingIsNotIdle(l, s.requests[who], e.action);
        }
      }
    }
  }

  lemma NoRequests(l: Limits, events: seq<Event>, states: seq<State>)
    requires Run(l, events, states)
    ensures |states| == |events| + 1 && states[0].requests == []
  {
  }

  lemma LeavingIsNotIdle(l: Limits, r: Request, a: Action)
    requires CanAct(l, r, a)
    ensures Leaving(r.pc) ==> !a.Write? && !a.FlushResponse? && !a.Return?
  {
  }

  /** The first outcome recorded for a request stands to the end. */
  lemma {:induction false} FirstOutcomeStands(l: Limits, events: seq<Event>, states: seq<State>, who: nat, i: nat,
                                              j: nat)
    requires Run(l, events, states) && i <= j <= |events|
    requires who < |states[i].requests| && states[i].requests[who].account.outcome != 0
    ensures who < |states[j].requests|
    ensures states[j].requests[who].account.outcome == states[i].requests[who].account.outcome
  {
    if i < j {
      hide Run, Act;
      FirstOutcomeStands(l, events, states, who, i, j - 1);
      RunStep(l, events, states, j - 1);
      if events[j - 1].who == who && !events[j - 1].action.Arrive? {
        OutcomeStep(l, states[j - 1].used, states[j - 1].requests[who], events[j - 1].action);
      }
    }
  }

  // ---------------------------------------------------------------- outcomes the client never sees

  lemma Extend(l: Limits, events: seq<Event>, states: seq<State>, e: Event)
    requires Run(l, events, states) && Enabled(l, states[|events|], e)
    ensures Run(l, events + [e], states + [Next(l, states[|events|], e)]) && |states| == |events| + 1
  {
    hide Next, Enabled;
  }

  /** A budget of one byte. */
  const TINY := Budget(1, 1)

  const HELD := NEW.(account := Account(1, 0, true, 0), read := 1, total := 1)

  /** The first request reads one byte to the end and keeps it. */
  lemma FullBudget() returns (events: seq<Event>, states: seq<State>)
    ensures Run(TINY, events, states) && |states| == |events| + 1 && states[|events|] == State(1, [HELD])
  {
    var one := NEW.(account := Account(0, 1, true, 0), read := 1, total := 1);
    events, states := [], [State(0, [])];
    assert Run(TINY, events, states);
    hide Run;
    Extend(TINY, events, states, Event(0, Arrive));
    events, states := events + [Event(0, Arrive)], states + [State(0, [NEW])];
    Extend(TINY, events, states, Event(0, ReadBytes(1, Eof)));
    events, states := events + [Event(0, ReadBytes(1, Eof))], states + [State(0, [one.(pc := Charging(Eof))])];
    Extend(TINY, events, states, Event(0, Step));
    events, states := events + [Event(0, Step)], states + [State(0, [one.(pc := FlushingRead)])];
    Extend(TINY, events, states, Event(0, Step));
    events, states := events + [Event(0, Step)], states + [State(1, [HELD])];
  }

  /** A second request, which finds the budget full and reserves nothing, takes an action. */
  ghost predicate Takes(r: Request, a: Action, r': Request) {
    CanAct(TINY, r, a) && r' == Act(TINY, 1, r, a) && r.account.reserved == 0 == r'.account.reserved
  }

  ghost predicate Script(actions: seq<Action>, rs: seq<Request>) {
    && |rs| == |actions| + 1 && rs[0] == NEW
    && forall i :: 0 <= i < |actions| ==> Takes(rs[i], actions[i], rs[i + 1])
  }

  lemma {:induction false} Play(actions: seq<Action>, rs: seq<Request>, n: nat)
    returns (events: seq<Event>, states: seq<State>)
    requires Script(actions, rs) && n <= |actions|
    ensures Run(TINY, events, states) && |states| == |events| + 1 && states[|events|] == State(1, [HELD, rs[n]])
    ensures forall k :: 0 <= k < n ==> Event(1, actions[k]) in events
  {
    if n == 0 {
      events, states := FullBudget();
      hide Run;
      Extend(TINY, events, states, Event(1, Arrive));
      events, states := events + [Event(1, Arrive)], states + [State(1, [HELD, NEW])];
    } else {
      events, states := Play(actions, rs, n - 1);
      var e := Event(1, actions[n - 1]);
      assert Takes(rs[n - 1], actions[n - 1], rs[n]);
      hide Run, Act, CanAct;
      Extend(TINY, events, states, e);
      assert [HELD, rs[n - 1]][1 := rs[n]] == [HELD, rs[n]];
      events, states := events + [e], states + [State(1, [HELD, rs[n]])];
    }
  }

  /** A finished request with a recorded outcome that ServeHTTP did not report. */
  predicate Unreported(r: Request) {
    r.pc.Exited? && r.account.outcome == TOO_MANY_REQUESTS && r.reported == 0
  }

  /** The handler neither wrote in time nor flushed. */
  predicate Quiet(r: Request) {
    !r.wrote && !r.flushed
  }

  lemma ScriptStep(actions: seq<Action>, rs: seq<Request>, a: Action, r: Request)
    requires Script(actions, rs) && Takes(rs[|actions|], a, r)
    ensures Script(actions + [a], rs + [r]) && |rs| == |actions| + 1
  {
    hide Takes;
  }

  const ONE_BYTE := NEW.(account := Account(0, 1, true, 0), read := 1, total := 1)

  lemma OneByteRead() returns (actions: seq<Action>, rs: seq<Request>)
    ensures Script(actions, rs) && |rs| == |actions| + 1 && rs[|actions|] == ONE_BYTE
  {
    actions, rs := [], [NEW];
    assert Script(actions, rs);
    hide Script;
    ScriptStep(actions, rs, ReadBytes(1, More), ONE_BYTE.(pc := Charging(More)));
    actions, rs := actions + [ReadBytes(1, More)], rs + [ONE_BYTE.(pc := Charging(More))];
    ScriptStep(actions, rs, Step, ONE_BYTE);
    actions, rs := actions + [Step], rs + [ONE_BYTE];
  }

  /** A handler that returns without closing the body: the trailing bytes are refused too late. */
  lemma RefusedAfterReturn() returns (events: seq<Event>, states: seq<State>)
    ensures Run(TINY, events, states) && |states| == |events| + 1 && |states[|events|].requests| == 2
    ensures Unreported(states[|events|].requests[1])
    ensures Quiet(states[|events|].requests[1]) && Event(1, Return) in events
  {
    hide Script, Run;
    var left := ONE_BYTE.(account := Account(0, 1, false, 0), pc := FlushingClose(true));
    var refused := left.(account := Account(0, 1, false, TOO_MANY_REQUESTS), pc := Exiting);
    var done := refused.(account := Account(0, 0, false, TOO_MANY_REQUESTS), read := 0, pc := Exited);
    var actions, rs := OneByteRead();
    ScriptStep(actions, rs, Return, left);
    actions, rs := actions + [Return], rs + [left];
    ScriptStep(actions, rs, Step, refused);
    actions, rs := actions + [Step], rs + [refused];
    ScriptStep(actions, rs, Step, done);
    assert (actions + [Step])[|actions| - 2] == Return;
    events, states := Play(actions + [Step], rs + [done], |actions| + 1);
  }

  /** The handler closes the body and the trailing bytes are refused. */
  lemma RefusedAtClose(wrote: bool) returns (actions: seq<Action>, rs: seq<Request>)
    ensures Script(actions, rs) && |rs| == |actions| + 1
    ensures rs[|actions|] == ONE_BYTE.(account := Account(0, 1, false, TOO_MANY_REQUESTS), wrote := wrote)
  {
    hide Script;
    var r := ONE_BYTE.(wrote := wrote);
    var closing := r.(account := Account(0, 1, false, 0), pc := FlushingClose(false));
    actions, rs := OneByteRead();
    if wrote {
      ScriptStep(actions, rs, Write, r);
      actions, rs := actions + [Write], rs + [r];
    }
    ScriptStep(actions, rs, CloseBody, closing);
    actions, rs := actions + [CloseBody], rs + [closing];
    ScriptStep(actions, rs, Step, r.(account := Account(0, 1, false, TOO_MANY_REQUESTS)));
    actions, rs := actions + [Step], rs + [r.(account := Account(0, 1, false, TOO_MANY_REQUESTS))];
  }

  /** A handler that begins its response and then closes the body: the client sees the response. */
  lemma RefusedAfterWrite() returns (events: seq<Event>, states: seq<State>)
    ensures Run(TINY, events, states) && |states| == |events| + 1 && |states[|events|].requests| == 2
    ensures Unreported(states[|events|].requests[1])
    ensures !states[|events|].requests[1].flushed && Event(1, Return) in events
  {
    hide Script, Run;
    var actions, rs := RefusedAtClose(true);
    var leaving := rs[|actions|].(pc := Exiting);
    var done := leaving.(account := Account(0, 0, false, TOO_MANY_REQUESTS), read := 0, pc := Exited);
    ScriptStep(actions, rs, Return, leaving);
    actions, rs := actions + [Return], rs + [leaving];
    ScriptStep(actions, rs, Step, done);
    assert (actions + [Step])[|actions| - 1] == Return;
    events, states := Play(actions + [Step], rs + [done], |actions| + 1);
  }

  /** A handler that flushes after its request was refused: the client sees the status of the flush. */
  lemma RefusedThenFlush() returns (events: seq<Event>, states: seq<State>)
    ensures Run(TINY, events, states) && |states| == |events| + 1 && |states[|events|].requests| == 2
    ensures Unreported(states[|events|].requests[1])
    ensures states[|events|].requests[1].flushed && !states[|events|].requests[1].wrote && Event(1, Return) in events
  {
    hide Script, Run;
    var actions, rs := RefusedAtClose(false);
    var flushed := rs[|actions|].(flushed := true);
    var leaving := flushed.(pc := Exiting);
    var done := leaving.(account := Account(0, 0, false, TOO_MANY_REQUESTS), read := 0, pc := Exited);
    ScriptStep(actions, rs, FlushResponse, flushed);
    actions, rs := actions + [FlushResponse], rs + [flushed];
    ScriptStep(actions, rs, Return, leaving);
    actions, rs := actions + [Return], rs + [leaving];
    ScriptStep(actions, rs, Step, done);
    assert (actions + [Step])[|actions| - 1] == Return;
    events, states := Play(actions + [Step], rs + [done], |actions| + 1);
  }

  /** A handler that panics after its request was refused: ServeHTTP never gets to answer. */
  lemma RefusedThenPanic() returns (events: seq<Event>, states: seq<State>)
    ensures Run(TINY, events, states) && |states| == |events| + 1 && |states[|events|].requests| == 2
    ensures Unreported(states[|events|].requests[1])
    ensures Quiet(states[|events|].requests[1]) && Event(1, Panic) in events
  {
    hide Script, Run;
    var actions, rs := RefusedAtClose(false);
    var leaving := rs[|actions|].(pc := Exiting);
    var done := leaving.(account := Account(0, 0, false, TOO_MANY_REQUESTS), read := 0, pc := Exited);
    ScriptStep(actions, rs, Panic, leaving);
    actions, rs := actions + [Panic], rs + [leaving];
    ScriptStep(actions, rs, Step, done);
    assert (actions + [Step])[|actions| - 1] == Panic;
    events, states := Play(actions + [Step], rs + [done], |actions| + 1);
  }

  // ---------------------------------------------------------------- undisturbed requests

  function StepsLeft(r: Request): nat {
    match r.pc
    case Charging(_) => r.account.unbilled + 3
    case FlushingRead => 2
    case FlushingClose(_) => 2
    case Idle => 0
    case Exited => 0
    case _ => 1
  }

  /** The steps of one request with nobody else at the semaphore, until its handler has the word again. */
  function Alone(l: Limits, used: nat, r: Request): (Request, nat)
    requires l.Budget? && r.account.reserved <= used
    decreases StepsLeft(r)
  {
    if r.pc.Idle? || r.pc.Exited? then (r, used)
    else
      var r' := StepOf(l, used, r);
      Alone(l, used - r.account.reserved + r'.account.reserved, r')
  }

  lemma AloneStep(l: Limits, used: nat, r: Request)
    requires l.Budget? && r.account.reserved <= used && !r.pc.Idle? && !r.pc.Exited?
    ensures var r' := StepOf(l, used, r);
            Alone(l, used, r) == Alone(l, used - r.account.reserved + r'.account.reserved, r')
  {
  }

  lemma AloneFails(l: Limits, used: nat, r: Request, code: nat)
    requires l.Budget? && r.account.reserved <= used && r.pc == Failing(code)
    ensures var failed := r.(account := Failed(r.account, code), read := 0, pc := Idle);
            Alone(l, used, r) == (failed, used - r.account.reserved)
  {
  }

  lemma OneBatch(used: nat, bytes: nat, size: nat)
    requires bytes >= BATCH
    ensures (bytes - BATCH) / BATCH == bytes / BATCH - 1 && (bytes - BATCH) % BATCH == bytes % BATCH
    ensures FitsBatches(used, bytes, size) <==> used + BATCH <= size && FitsBatches(used + BATCH, bytes - BATCH, size)
  {
  }

  /** What charging comes to with nobody else at the semaphore: all whole batches, or a failure. */
  ghost predicate Charged(l: Limits, used: nat, r: Request, done: (Request, nat))
    requires l.Budget? && r.account.reserved <= used
  {
    var a, bytes := r.account, r.account.unbilled;
    var billed := BATCH * (bytes / BATCH);
    done == if FitsBatches(used, bytes, l.capacity)
            then Alone(l, used + billed, r.(account := a.(reserved := a.reserved + billed, unbilled := bytes % BATCH)))
            else (r.(account := Failed(a, TOO_MANY_REQUESTS), read := 0, pc := Idle), used - a.reserved)
  }

  lemma {:induction false} UndisturbedCharge(l: Limits, used: nat, r: Request)
    requires l.Budget? && r.account.reserved <= used && r.pc.Charging?
    ensures Charged(l, used, r, Alone(l, used, r))
    decreases r.account.unbilled
  {
    hide Alone, FitsBatches;
    var a := r.account;
    if a.unbilled < BATCH {
      SmallCharge(used, a.unbilled, l.capacity);
    } else {
      OneBatch(used, a.unbilled, l.capacity);
      AloneStep(l, used, r);
      if used + BATCH <= l.capacity {
        var billed := a.(reserved := a.reserved + BATCH, unbilled := a.unbilled - BATCH);
        UndisturbedCharge(l, used + BATCH, r.(account := billed));
      } else {
        AloneFails(l, used, r.(pc := Failing(TOO_MANY_REQUESTS)), TOO_MANY_REQUESTS);
      }
    }
  }

  lemma SmallCharge(used: nat, bytes: nat, size: nat)
    requires bytes < BATCH
    ensures bytes / BATCH == 0 && bytes % BATCH == bytes && FitsBatches(used, bytes, size)
  {
  }

  /** Less than a batch is left: the read ends as it must. */
  lemma UndisturbedEnd(l: Limits, used: nat, r: Request)
    requires l.Budget? && r.account.reserved <= used && r.pc.Charging? && r.account.unbilled < BATCH
    ensures var (r', used') := Alone(l, used, r); var a := r.account;
            && r'.pc.Idle? && used' == used - a.reserved + r'.account.reserved
            && r'.account == match r.pc.end
               case More => a
               case Eof =>
                 if used + a.unbilled <= l.capacity then a.(reserved := a.reserved + a.unbilled, unbilled := 0)
                 else Failed(a, TOO_MANY_REQUESTS)
               case IdleTimeout => Failed(a, REQUEST_TIMEOUT)
               case OtherError => a.(reserved := 0, unbilled := 0)
  {
    hide Alone;
    AloneStep(l, used, r);
    var next := StepOf(l, used, r);
    if next.pc.FlushingRead? && used + r.account.unbilled > l.capacity {
      AloneStep(l, used, next);
      AloneFails(l, used, next.(pc := Failing(TOO_MANY_REQUESTS)), TOO_MANY_REQUESTS);
    } else if next.pc.Failing? {
      AloneFails(l, used, next, REQUEST_TIMEOUT);
    } else if !next.pc.Idle? {
      AloneStep(l, used, next);
      var last := StepOf(l, used, next);
      AloneStops(l, used - r.account.reserved + last.account.reserved, last);
    } else {
      AloneStops(l, used, next);
    }
  }

  lemma AloneStops(l: Limits, used: nat, r: Request)
    requires l.Budget? && r.account.reserved <= used && r.pc.Idle?
    ensures Alone(l, used, r) == (r, used)
  {
  }

  /** Undisturbed, the steps of a read are the Read of the class. */
  lemma UndisturbedRead(l: Limits, used: nat, r: Request, n: nat, end: ReadEnd)
    requires l.Budget? && r.pc.Idle? && r.account.open && r.account.reserved <= used <= l.capacity
    ensures var (r', used') := Alone(l, used, Act(l, used, r, ReadBytes(n, end)));
            && r'.pc.Idle? && r'.account == ReadEffect(l.capacity, used, r.account, n, end)
            && used' == used - r.account.reserved + r'.account.reserved
  {
    hide Alone, FitsBatches;
    var q := Act(l, used, r, ReadBytes(n, end));
    var a, bytes := q.account, q.account.unbilled;
    var billed := BATCH * (bytes / BATCH);
    UndisturbedCharge(l, used, q);
    if FitsBatches(used, bytes, l.capacity) {
      UndisturbedEnd(l, used + billed, q.(account := a.(reserved := a.reserved + billed, unbilled := bytes % BATCH)));
    }
  }

  /** Undisturbed, the steps of a close are the Close of the class. */
  lemma UndisturbedClose(l: Limits, used: nat, r: Request)
    requires l.Budget? && r.pc.Idle? && r.account.open && r.account.reserved <= used <= l.capacity
    ensures var (r', used') := Alone(l, used, Act(l, used, r, CloseBody));
            && r'.pc.Idle? && r'.account == CloseEffect(l.capacity, used, r.account)
            && used' == used - r.account.reserved + r'.account.reserved
  {
  }
}
