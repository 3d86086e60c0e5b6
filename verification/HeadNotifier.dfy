/** The new-heads notifier (evmrpc/notifier.go) and the FinalizeBlock and Commit calls that drive
    it (app/app.go, app/abci.go). */
module HeadNotifier {
  import opened Wrappers

  datatype Head = Head(height: int, hash: string)

  /** A channel of the given capacity after publish, with nobody receiving meanwhile: the new event is
      last, and only a full channel loses one, its oldest. */
  function Published<T>(capacity: nat, ch: seq<T>, x: T): seq<T>
    requires 1 <= capacity
  {
    (if |ch| < capacity then ch else ch[1..]) + [x]
  }

  // ---------------------------------------------------------------- the object

  class BlockHeaderNotifier {
    const capacity: nat
    var pending: Option<Head>
    var ch: seq<Head>

    constructor (capacity: nat)
      ensures this.capacity == capacity && pending == None && ch == []
    {
      this.capacity := capacity;
      pending, ch := None, [];
    }

    method Stash(head: Head)
      modifies this`pending
      ensures pending == Some(head)
    {
      pending := Some(head);
    }

    method ClearStash()
      modifies this`pending
      ensures pending == None
    {
      pending := None;
    }

    method Publish(head: Head)
      requires 1 <= capacity && |ch| <= capacity
      modifies this`ch
      ensures |ch| <= capacity && ch == Published(capacity, old(ch), head)
    {
      if |ch| < capacity {
        ch := ch + [head];
        return;
      }
      if |ch| > 0 {
        ch := ch[1..];
      }
      if |ch| < capacity {
        ch := ch + [head];
      }
    }

    method PublishStashed() returns (published: bool)
      requires 1 <= capacity && |ch| <= capacity
      modifies this
      ensures pending == None && |ch| <= capacity && published == old(pending).Some?
      ensures ch == if published then Published(capacity, old(ch), old(pending).value) else old(ch)
    {
      var evt := pending;
      pending := None;
      if evt.None? {
        return false;
      }
      Publish(evt.value);
      return true;
    }
  }

  // ---------------------------------------------------------------- runs

  /** A head with the position of its block among the committed ones. */
  datatype Event = Event(head: Head, at: nat)

  datatype Phase =
    | Ready
    | Finalized(block: Head)   // FinalizeBlock returned a block that awaits Commit
    | FirstSend(event: Event)
    | Draining(event: Event)
    | SecondSend(event: Event)

  /** `committed` lists the blocks of the successful commits, `latest` the last event published;
      `drained` and `lost` record what publish threw away. */
  datatype State = State(
    phase: Phase,
    pending: Option<Head>,
    buffer: seq<Event>,
    received: seq<Event>,
    committed: seq<Head>,
    latest: Option<Event>,
    drained: seq<Event>,
    lost: seq<Event>)

  const START := State(Ready, None, [], [], [], None, [], [])

  /** How a FinalizeBlock ends: with a stash, without one, or with an error. */
  datatype Ending = Stashes | ReturnsEarly | Errs

  datatype Move =
    | FinalizeBlock(block: Head, ending: Ending)
    | Commit(succeeds: bool)
    | Send                     // the next select of publish
    | Receive                  // the fan-out goroutine takes an event

  predicate Enabled(s: State, m: Move) {
    match m
    case FinalizeBlock(_, _) => s.phase.Ready? || s.phase.Finalized?
    case Commit(_) => s.phase.Finalized?
    case Send => s.phase.FirstSend? || s.phase.Draining? || s.phase.SecondSend?
    case Receive => s.buffer != []
  }

  function Next(capacity: nat, s: State, m: Move): State
    requires Enabled(s, m)
  {
    match m
    case FinalizeBlock(b, ending) =>
      s.(pending := if ending.Stashes? then Some(b) else None, phase := if ending.Errs? then Ready else Finalized(b))
    case Commit(succeeds) =>
      if !succeeds then s
      else
        var committed := s.committed + [s.phase.block];
        if s.pending.None? then s.(committed := committed, phase := Ready)
        else
          var e := Event(s.pending.value, |s.committed|);
          s.(committed := committed, pending := None, latest := Some(e), phase := FirstSend(e))
    case Send =>
      (match s.phase
       case FirstSend(e) =>
         if |s.buffer| < capacity then s.(buffer := s.buffer + [e], phase := Ready)
         else s.(phase := Draining(e))
       case Draining(e) =>
         if s.buffer == [] then s.(phase := SecondSend(e))
         else s.(buffer := s.buffer[1..], drained := s.drained + [s.buffer[0]], phase := SecondSend(e))
       case SecondSend(e) =>
         if |s.buffer| < capacity then s.(buffer := s.buffer + [e], phase := Ready)
         else s.(lost := s.lost + [e], phase := Ready)
       case _ => s)
    case Receive => s.(received := s.received + [s.buffer[0]], buffer := s.buffer[1..])
  }

  ghost predicate Run(capacity: nat, moves: seq<Move>, states: seq<State>) {
    && |states| == |moves| + 1 && states[0] == START
    && forall i {:trigger moves[i]} :: 0 <= i < |moves| ==>
         Enabled(states[i], moves[i]) && states[i + 1] == Next(capacity, states[i], moves[i])
  }

  /** The events are heads of committed blocks, each once, in commit order. */
  ghost predicate Subsequence(es: seq<Event>, committed: seq<Head>) {
    && (forall i :: 0 <= i < |es| ==> es[i].at < |committed| && es[i].head == committed[es[i].at])
    && (forall i, j :: 0 <= i < j < |es| ==> es[i].at < es[j].at)
  }

  predicate Publishing(s: State) {
    s.phase.FirstSend? || s.phase.Draining? || s.phase.SecondSend?
  }

  function Seen(s: State): seq<Event> {
    s.received + s.buffer
  }

  ghost predicate Before(es: seq<Event>, at: nat) {
    forall i :: 0 <= i < |es| ==> es[i].at < at
  }

  ghost predicate IsHead(e: Event, committed: seq<Head>) {
    e.at < |committed| && e.head == committed[e.at]
  }

  ghost predicate Invariant(capacity: nat, s: State) {
    && |s.buffer| <= capacity && s.lost == []
    && Subsequence(Seen(s), s.committed)
    && (s.phase.SecondSend? ==> |s.buffer| < capacity)
    && (s.pending.Some? ==> s.phase.Finalized? && s.pending.value == s.phase.block)
    && (if Publishing(s) then
          s.latest == Some(s.phase.event) && IsHead(s.phase.event, s.committed) && Before(Seen(s), s.phase.event.at)
        else s.latest == if Seen(s) == [] then None else Some(Seen(s)[|Seen(s)| - 1]))
  }

  lemma MoreCommitted(es: seq<Event>, committed: seq<Head>, head: Head)
    requires Subsequence(es, committed)
    ensures Subsequence(es, committed + [head]) && Before(es, |committed|)
  {
  }

  lemma AppendEvent(es: seq<Event>, committed: seq<Head>, e: Event)
    requires Subsequence(es, committed) && IsHead(e, committed) && Before(es, e.at)
    ensures Subsequence(es + [e], committed)
  {
  }

  lemma DropEvent(es: seq<Event>, fs: seq<Event>, committed: seq<Head>, at: nat)
    requires fs != [] && Subsequence(es + fs, committed) && Before(es + fs, at)
    ensures Subsequence(es + fs[1..], committed) && Before(es + fs[1..], at)
  {
    var all, rest := es + fs, es + fs[1..];
    forall i | 0 <= i < |rest|
      ensures rest[i] == all[if i < |es| then i else i + 1]
    {
    }
  }

  lemma CallStep(capacity: nat, s: State, m: Move)
    requires capacity >= 1 && Invariant(capacity, s) && Enabled(s, m) && (m.FinalizeBlock? || m.Commit?)
    ensures Invariant(capacity, Next(capacity, s, m))
  {
    hide Subsequence, Before;
    if m == Commit(true) {
      MoreCommitted(Seen(s), s.committed, s.phase.block);
      assert Seen(Next(capacity, s, m)) == Seen(s);
    }
  }

  lemma SendStep(capacity: nat, s: State)
    requires capacity >= 1 && Invariant(capacity, s) && Enabled(s, Send)
    ensures Invariant(capacity, Next(capacity, s, Send))
  {
    hide Subsequence, Before;
    var t := Next(capacity, s, Send);
    if s.phase.Draining? {
      if s.buffer != [] {
        DropEvent(s.received, s.buffer, s.committed, s.phase.event.at);
      }
    } else if |s.buffer| < capacity {
      AppendEvent(Seen(s), s.committed, s.phase.event);
      assert Seen(t) == Seen(s) + [s.phase.event];
    }
  }

  lemma ReceiveStep(capacity: nat, s: State)
    requires capacity >= 1 && Invariant(capacity, s) && Enabled(s, Receive)
    ensures Invariant(capacity, Next(capacity, s, Receive))
  {
    hide Subsequence, Before;
    assert Seen(Next(capacity, s, Receive)) == Seen(s);
  }

  lemma {:induction false} Reachable(capacity: nat, moves: seq<Move>, states: seq<State>, n: nat)
    requires capacity >= 1 && Run(capacity, moves, states) && n <= |moves|
    ensures Invariant(capacity, states[n])
  {
    if n > 0 {
      hide Invariant, Next;
      Reachable(capacity, moves, states, n - 1);
      var s, m := states[n - 1], moves[n - 1];
      assert Enabled(s, m) && states[n] == Next(capacity, s, m);
      match m
      case FinalizeBlock(_, _) | Commit(_) => CallStep(capacity, s, m);
      case Send => SendStep(capacity, s);
      case Receive => ReceiveStep(capacity, s);
    }
  }

  /** Subscribers only ever see heads of committed blocks, each at most once and in commit order. */
  lemma HeadsFollowCommits(capacity: nat, moves: seq<Move>, states: seq<State>, n: nat)
    requires capacity >= 1 && Run(capacity, moves, states) && n <= |moves|
    ensures Subsequence(states[n].received, states[n].committed)
  {
    Reachable(capacity, moves, states, n);
    var s := states[n];
    assert s.received == Seen(s)[..|s.received|];
  }

  /** Publish never drops the head it was given: when it returns, the newest head is the last one
      received or the last one buffered. */
  lemma NewestHeadKept(capacity: nat, moves: seq<Move>, states: seq<State>, n: nat)
    requires capacity >= 1 && Run(capacity, moves, states) && n <= |moves|
    ensures states[n].lost == []
    ensures !Publishing(states[n]) && states[n].latest.Some? ==>
              var seen := Seen(states[n]);
              seen != [] && seen[|seen| - 1] == states[n].latest.value
  {
    Reachable(capacity, moves, states, n);
  }

  /** A block whose FinalizeBlock did not stash, or whose Commit failed, is not published by a later
      Commit: what is published at a Commit is the block of that Commit. */
  lemma PublishedIsCommitted(capacity: nat, moves: seq<Move>, states: seq<State>, n: nat)
    requires capacity >= 1 && Run(capacity, moves, states) && n < |moves| && moves[n] == Commit(true)
    ensures var s, t := states[n], states[n + 1];
            if s.pending.None? then t.latest == s.latest && !Publishing(t)
            else
              && t.phase == FirstSend(Event(s.phase.block, |t.committed| - 1))
              && t.committed == s.committed + [s.phase.block]
  {
    Reachable(capacity, moves, states, n);
  }

  function SendsLeft(s: State): nat {
    match s.phase
    case FirstSend(_) => 3
    case Draining(_) => 2
    case SecondSend(_) => 1
    case _ => 0
  }

  /** The selects of one publish with nobody receiving in between. */
  function SendAll(capacity: nat, s: State): State
    decreases SendsLeft(s)
  {
    if Publishing(s) then SendAll(capacity, Next(capacity, s, Send)) else s
  }

  lemma SendOne(capacity: nat, s: State)
    requires Publishing(s)
    ensures SendAll(capacity, s) == var t := Next(capacity, s, Send); if Publishing(t) then SendAll(capacity, t) else t
  {
  }

  /** Undisturbed, the three selects are the Publish of the class, and only what it drains is lost. */
  lemma UndisturbedPublish(capacity: nat, s: State)
    requires 1 <= capacity && |s.buffer| <= capacity && s.phase.FirstSend?
    ensures var drained := if |s.buffer| < capacity then [] else [s.buffer[0]];
            var published := Published(capacity, s.buffer, s.phase.event);
            SendAll(capacity, s) == s.(phase := Ready, buffer := published, drained := s.drained + drained)
  {
    hide SendAll;
    assert s.drained + [] == s.drained;
    var s1 := Next(capacity, s, Send);
    SendOne(capacity, s);
    if s1.phase.Draining? {
      var s2 := Next(capacity, s1, Send);
      SendOne(capacity, s1);
      SendOne(capacity, s2);
    }
  }

  // ---------------------------------------------------------------- the object in a run

  predicate IsCall(m: Move) {
    m.FinalizeBlock? || m.Commit?
  }

  /** The state after a sequence of FinalizeBlock and Commit calls with nobody receiving; a Commit that
      finds no finalized block is not made. */
  function Driven(capacity: nat, calls: seq<Move>, n: nat): State
    requires n <= |calls| && forall i :: 0 <= i < |calls| ==> IsCall(calls[i])
  {
    if n == 0 then START
    else
      var s := Driven(capacity, calls, n - 1);
      if Enabled(s, calls[n - 1]) then SendAll(capacity, Next(capacity, s, calls[n - 1])) else s
  }

  lemma Extend(capacity: nat, moves: seq<Move>, states: seq<State>, m: Move)
    requires Run(capacity, moves, states) && Enabled(states[|moves|], m)
    ensures Run(capacity, moves + [m], states + [Next(capacity, states[|moves|], m)]) && |states| == |moves| + 1
  {
    hide Next, Enabled;
  }

  lemma {:induction false} SendAllRuns(capacity: nat, moves: seq<Move>, states: seq<State>)
    returns (moves': seq<Move>, states': seq<State>)
    requires Run(capacity, moves, states)
    ensures Run(capacity, moves', states') && states'[|moves'|] == SendAll(capacity, states[|moves|])
    decreases SendsLeft(states[|moves|])
  {
    hide Run;
    RunLength(capacity, moves, states);
    if Publishing(states[|moves|]) {
      Extend(capacity, moves, states, Send);
      moves', states' := SendAllRuns(capacity, moves + [Send], states + [Next(capacity, states[|moves|], Send)]);
    } else {
      moves', states' := moves, states;
    }
  }

  lemma RunLength(capacity: nat, moves: seq<Move>, states: seq<State>)
    requires Run(capacity, moves, states)
    ensures |states| == |moves| + 1
  {
  }

  /** Such a sequence of calls is a run. */
  lemma {:induction false} DrivenRuns(capacity: nat, calls: seq<Move>, n: nat)
    returns (moves: seq<Move>, states: seq<State>)
    requires n <= |calls| && forall i :: 0 <= i < |calls| ==> IsCall(calls[i])
    ensures Run(capacity, moves, states) && |states| == |moves| + 1 && states[|moves|] == Driven(capacity, calls, n)
  {
    if n == 0 {
      moves, states := [], [START];
    } else {
      moves, states := DrivenRuns(capacity, calls, n - 1);
      hide Run, SendAll;
      var s := states[|moves|];
      if Enabled(s, calls[n - 1]) {
        Extend(capacity, moves, states, calls[n - 1]);
        moves, states := SendAllRuns(capacity, moves + [calls[n - 1]], states + [Next(capacity, s, calls[n - 1])]);
        RunLength(capacity, moves, states);
      }
    }
  }

  function Heads(es: seq<Event>): seq<Head> {
    seq(|es|, i requires 0 <= i < |es| => es[i].head)
  }

  /** One call, on the object and in the run. */
  lemma CallEffect(capacity: nat, calls: seq<Move>, n: nat)
    requires 1 <= capacity && n < |calls| && forall i :: 0 <= i < |calls| ==> IsCall(calls[i])
    ensures var s, t := Driven(capacity, calls, n), Driven(capacity, calls, n + 1);
            && |Heads(s.buffer)| <= capacity && !Publishing(s)
            && match calls[n]
               case FinalizeBlock(b, ending) =>
                 && t.pending == (if ending.Stashes? then Some(b) else None)
                 && Heads(t.buffer) == Heads(s.buffer) && t.phase.Finalized? == !ending.Errs?
               case Commit(succeeds) =>
                 if !succeeds || !s.phase.Finalized? then t == s
                 else
                   && t.pending == None && t.phase.Ready?
                   && Heads(t.buffer) == if s.pending.None? then Heads(s.buffer)
                                         else Published(capacity, Heads(s.buffer), s.pending.value)
               case _ => true
  {
    var moves, states := DrivenRuns(capacity, calls, n);
    Reachable(capacity, moves, states, |moves|);
    DrivenRests(capacity, calls, n);
    hide Run, Subsequence, Before;
    var s := Driven(capacity, calls, n);
    if calls[n] == Commit(true) && s.phase.Finalized? && s.pending.Some? {
      var s1 := Next(capacity, s, calls[n]);
      UndisturbedPublish(capacity, s1);
    }
  }

  lemma {:induction false} DrivenRests(capacity: nat, calls: seq<Move>, n: nat)
    requires n <= |calls| && forall i :: 0 <= i < |calls| ==> IsCall(calls[i])
    ensures !Publishing(Driven(capacity, calls, n))
  {
    if n > 0 {
      DrivenRests(capacity, calls, n - 1);
      var s := Driven(capacity, calls, n - 1);
      if Enabled(s, calls[n - 1]) {
        SendAllRests(capacity, Next(capacity, s, calls[n - 1]));
      }
    }
  }

  lemma {:induction false} SendAllRests(capacity: nat, s: State)
    ensures !Publishing(SendAll(capacity, s))
    decreases SendsLeft(s)
  {
    if Publishing(s) {
      SendAllRests(capacity, Next(capacity, s, Send));
    }
  }

  /** FinalizeBlocker and Commit around the notifier: it holds what the run holds, and its channel is a
      subsequence of the committed blocks. */
  method Drive(notifier: BlockHeaderNotifier, calls: seq<Move>)
    requires 1 <= notifier.capacity && notifier.pending == None && notifier.ch == []
    requires forall i :: 0 <= i < |calls| ==> IsCall(calls[i])
    modifies notifier
    ensures var s := Driven(notifier.capacity, calls, |calls|);
            notifier.pending == s.pending && notifier.ch == Heads(s.buffer) && Subsequence(s.buffer, s.committed)
  {
    hide Driven, Published, Subsequence;
    var finalized := false;
    DrivenStart(notifier.capacity, calls);
    for k := 0 to |calls|
      invariant var s := Driven(notifier.capacity, calls, k);
                notifier.pending == s.pending && notifier.ch == Heads(s.buffer) && finalized == s.phase.Finalized?
    {
      CallEffect(notifier.capacity, calls, k);
      match calls[k] {
        case FinalizeBlock(block, ending) =>
          notifier.ClearStash();
          if ending.Stashes? {
            notifier.Stash(block);
          }
          finalized := !ending.Errs?;
        case Commit(succeeds) =>
          if finalized && succeeds {
            var published := notifier.PublishStashed();
            finalized := false;
          }
      }
    }
    ghost var moves, states := DrivenRuns(notifier.capacity, calls, |calls|);
    BufferFollows(notifier.capacity, moves, states);
  }

  lemma DrivenStart(capacity: nat, calls: seq<Move>)
    requires forall i :: 0 <= i < |calls| ==> IsCall(calls[i])
    ensures Driven(capacity, calls, 0) == START
  {
  }

  lemma BufferFollows(capacity: nat, moves: seq<Move>, states: seq<State>)
    requires 1 <= capacity && Run(capacity, moves, states)
    ensures Subsequence(states[|moves|].buffer, states[|moves|].committed)
  {
    Reachable(capacity, moves, states, |moves|);
    var s := states[|moves|];
    forall i | 0 <= i < |s.buffer| ensures s.buffer[i] == Seen(s)[|s.received| + i] {
    }
  }
}
