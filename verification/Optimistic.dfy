/** Optimistic block processing (app/app.go): the first proposal of a height is claimed and run in
    the background; FinalizeBlock waits for it and takes its results, or runs the block again.
    Every lock acquisition, channel operation and ABCI call is one step. ABCI calls are serialized;
    the background workers interleave with them at any point. */
module Optimistic {
  import opened Wrappers

  type Hash = string
  type Store = map<string, string>

  datatype Block = Block(hash: Hash, txs: seq<string>)

  /** What ProcessBlock returns: results and the written store, or an error. */
  datatype Outcome = Processed(results: seq<string>, store: Store) | Failed

  /** ProcessBlock is deterministic and a hash identifies its block. */
  datatype World = World(process: (Store, Block) -> Outcome, blockOf: Hash -> Block) {
    predicate Knows(b: Block) {
      b == blockOf(b.hash)
    }
  }

  /** The shared record: `completion` is the channel of the current claim. */
  datatype Info = Info(hash: Hash, aborted: bool, completion: Option<nat>, results: Option<seq<string>>)

  const NO_INFO := Info("", false, None, None)

  /** A completion channel of capacity one, by what was sent to it and received from it. */
  datatype Channel = Channel(sent: nat, received: nat) {
    predicate Holds() {
      sent > received
    }
    predicate Settled() {
      sent == 1 && received == 1
    }
  }

  datatype Worker = Running(block: Block) | Sending(completion: Option<nat>) | Done

  /** Where the ABCI thread is. */
  datatype Phase =
    | Idle
    | Deciding(block: Block)
    | Claimed(block: Block)
    | Upgrading
    | Signalling(completion: Option<nat>)
    | Comparing(block: Block)
    | Aborting
    | Waiting(block: Block, channel: nat)
    | Reading(block: Block)
    | Executing(block: Block)
    | Committing(store: Store)
    | Halted

  /** The store and header proposals run on; it is branched from the committed store when unset. */
  datatype ProposalState = ProposalState(isSet: bool, store: Store, header: Hash)

  /** One FinalizeBlock: the block, the store it started from, its outcome, and the header of the
      state handed to Commit. */
  datatype Finalization = Finalization(block: Block, base: Store, outcome: Outcome, header: Hash, fast: bool)

  /** `orphan` says that the current claim lost its handler to a panic before anyone was told to send
      its token. */
  datatype State = State(
    committed: Store,
    proposal: ProposalState,
    info: Info,
    channels: seq<Channel>,
    workers: seq<Worker>,
    phase: Phase,
    orphan: bool,
    finalized: seq<Finalization>)

  function Initial(genesis: Store): State {
    State(genesis, ProposalState(false, map[], ""), NO_INFO, [], [], Idle, false, [])
  }

  datatype Event =
    | Propose(block: Block, admitted: bool)   // ProcessProposal up to the decode and gas check
    | Claim                                   // lock: claim unless a completion channel exists
    | Launch(upgrade: bool)                   // start the worker, or see an upgrade planned
    | LaunchPanics                            // the upgrade lookup panics; BaseApp recovers and rejects
    | AbortForUpgrade                         // lock: mark aborted, read the channel
    | SignalUpgrade                           // send the token
    | Compare                                 // compare the claimed hash
    | Abort                                   // lock: mark aborted
    | Finish(worker: nat, partial: Store)     // ProcessBlock returns; lock: store its results
    | Signal(worker: nat)                     // send the token
    | Finalize(block: Block)                  // FinalizeBlock up to reading the channel
    | Receive                                 // receive the token
    | Take                                    // read the record: take the results or fall through
    | Execute                                 // run the block again
    | Commit

  predicate CanSend(s: State, c: Option<nat>) {
    c.Some? && c.value < |s.channels| && !s.channels[c.value].Holds()
  }

  predicate Enabled(w: World, s: State, e: Event) {
    match e
    case Propose(b, _) => s.phase.Idle? && w.Knows(b)
    case Claim => s.phase.Deciding?
    case Launch(_) => s.phase.Claimed?
    case LaunchPanics => s.phase.Claimed?
    case AbortForUpgrade => s.phase.Upgrading?
    case SignalUpgrade => s.phase.Signalling? && CanSend(s, s.phase.completion)
    case Compare => s.phase.Comparing?
    case Abort => s.phase.Aborting?
    case Finish(k, _) => k < |s.workers| && s.workers[k].Running?
    case Signal(k) => k < |s.workers| && s.workers[k].Sending? && CanSend(s, s.workers[k].completion)
    case Finalize(b) => s.phase.Idle? && w.Knows(b)
    case Receive => s.phase.Waiting? && s.phase.channel < |s.channels| && s.channels[s.phase.channel].Holds()
    case Take => s.phase.Reading?
    case Execute => s.phase.Executing?
    case Commit => s.phase.Committing?
  }

  function Sent(s: State, c: nat): seq<Channel>
    requires c < |s.channels|
  {
    s.channels[c := s.channels[c].(sent := s.channels[c].sent + 1)]
  }

  function Next(w: World, s: State, e: Event): State
    requires Enabled(w, s, e)
  {
    match e
    case Propose(b, admitted) =>
      var store := if s.proposal.isSet then s.proposal.store else s.committed;
      s.(proposal := ProposalState(true, store, b.hash), phase := if admitted then Deciding(b) else Idle)
    case Claim =>
      if s.info.completion.None? then
        s.(info := Info(s.phase.block.hash, false, Some(|s.channels|), None),
           channels := s.channels + [Channel(0, 0)], phase := Claimed(s.phase.block))
      else s.(phase := Comparing(s.phase.block))
    case Launch(upgrade) =>
      if upgrade then s.(phase := Upgrading)
      else s.(workers := s.workers + [Running(s.phase.block)], phase := Idle)
    case LaunchPanics => s.(phase := Idle, orphan := true)
    case AbortForUpgrade => s.(info := s.info.(aborted := true), phase := Signalling(s.info.completion))
    case SignalUpgrade => s.(channels := Sent(s, s.phase.completion.value), phase := Idle)
    case Compare => s.(phase := if s.info.hash != s.phase.block.hash then Aborting else Idle)
    case Abort => s.(info := s.info.(aborted := true), phase := Idle)
    case Finish(k, partial) =>
      var outcome := w.process(s.proposal.store, s.workers[k].block);
      s.(proposal := s.proposal.(store := if outcome.Failed? then partial else outcome.store),
         info := if outcome.Failed? then s.info.(aborted := true) else s.info.(results := Some(outcome.results)),
         workers := s.workers[k := Sending(s.info.completion)])
    case Signal(k) => s.(channels := Sent(s, s.workers[k].completion.value), workers := s.workers[k := Done])
    case Finalize(b) =>
      s.(phase := if s.info.completion.Some? then Waiting(b, s.info.completion.value) else Executing(b))
    case Receive =>
      var c := s.phase.channel;
      s.(channels := s.channels[c := s.channels[c].(received := s.channels[c].received + 1)],
        phase := Reading(s.phase.block))
    case Take =>
      var b := s.phase.block;
      if !s.info.aborted && s.info.hash == b.hash then
        var results := if s.info.results.Some? then s.info.results.value else [];
        s.(info := NO_INFO, phase := Committing(s.proposal.store),
           finalized := s.finalized +
             [Finalization(b, s.committed, Processed(results, s.proposal.store), s.proposal.header, true)])
      else s.(phase := Executing(b))
    case Execute =>
      var outcome := w.process(s.committed, s.phase.block);
      s.(info := NO_INFO, phase := if outcome.Failed? then Halted else Committing(outcome.store),
         finalized := s.finalized + [Finalization(s.phase.block, s.committed, outcome, s.phase.block.hash, false)])
    case Commit => s.(committed := s.phase.store, proposal := s.proposal.(isSet := false), phase := Idle)
  }

  ghost predicate Run(w: World, genesis: Store, events: seq<Event>, states: seq<State>) {
    && |states| == |events| + 1 && states[0] == Initial(genesis)
    && forall i {:trigger events[i]} :: 0 <= i < |events| ==>
         Enabled(w, states[i], events[i]) && states[i + 1] == Next(w, states[i], events[i])
  }

  lemma RunStep(w: World, genesis: Store, events: seq<Event>, states: seq<State>, n: nat)
    requires Run(w, genesis, events, states) && n < |events|
    ensures |states| == |events| + 1 && Enabled(w, states[n], events[n]) &&
            states[n + 1] == Next(w, states[n], events[n])
  {
  }

  // ---------------------------------------------------------------- the invariant

  /** No worker before the last one is live. */
  ghost predicate OnlyLastLive(s: State) {
    forall k :: 0 <= k < |s.workers| - 1 ==> s.workers[k].Done?
  }

  predicate Live(s: State) {
    |s.workers| > 0 && !s.workers[|s.workers| - 1].Done?
  }

  /** The ABCI thread still owes the token. */
  predicate Owes(s: State) {
    s.phase.Claimed? || s.phase.Upgrading? || s.phase.Signalling?
  }

  predicate StillRunning(s: State) {
    Live(s) && s.workers[|s.workers| - 1].Running?
  }

  /** Every channel before the current claim had its one token sent and received. */
  ghost predicate EarlierSettled(s: State) {
    forall c :: 0 <= c < |s.channels| && s.info.completion != Some(c) ==> s.channels[c].Settled()
  }

  ghost predicate Unclaimed(s: State) {
    && s.info == NO_INFO && !Live(s) && !s.orphan && (s.phase.Deciding? ==> s.proposal.isSet)
    && (s.phase.Idle? || s.phase.Deciding? || s.phase.Executing? || s.phase.Committing? || s.phase.Halted?)
  }

  predicate AfterReceive(p: Phase) {
    p.Reading? || p.Executing?
  }

  /** The state of the current claim `c`: whoever owes its token, and the record once it is paid. */
  ghost predicate ClaimHeld(w: World, s: State, c: nat) {
    && c == |s.channels| - 1
    && s.channels[c] == Channel(if Owes(s) || Live(s) || s.orphan then 0 else 1, if AfterReceive(s.phase) then 1 else 0)
    && !(Owes(s) && Live(s)) && !(s.orphan && (Owes(s) || Live(s)))
    && (Owes(s) || Live(s) || s.orphan ==> !AfterReceive(s.phase))
    && !s.phase.Committing? && !s.phase.Halted?
    && s.proposal.isSet
    && (s.phase.Claimed? || StillRunning(s) ==> s.proposal.store == s.committed && s.info.results == None)
    && (s.phase.Claimed? ==> s.phase.block == w.blockOf(s.info.hash))
    && (s.phase.Signalling? ==> s.phase.completion == Some(c))
    && (s.phase.Waiting? ==> s.phase.channel == c)
    && (StillRunning(s) ==> s.workers[|s.workers| - 1].block == w.blockOf(s.info.hash))
    && (Live(s) && !StillRunning(s) ==> s.workers[|s.workers| - 1].completion == Some(c))
    && (!s.phase.Claimed? && !s.phase.Upgrading? && !StillRunning(s) && !s.orphan && !s.info.aborted ==> Faithful(w, s))
  }

  /** The record and the proposal store hold what ProcessBlock gives for the claimed block. */
  ghost predicate Faithful(w: World, s: State) {
    && s.info.results.Some?
    && w.process(s.committed, w.blockOf(s.info.hash)) == Processed(s.info.results.value, s.proposal.store)
  }

  ghost predicate BlocksKnown(w: World, s: State) {
    && (s.phase.Deciding? || s.phase.Comparing? ==> w.Knows(s.phase.block))
    && (s.phase.Waiting? || s.phase.Reading? || s.phase.Executing? ==> w.Knows(s.phase.block))
    && (s.info.completion.Some? ==> s.info.hash == w.blockOf(s.info.hash).hash)
  }

  ghost predicate Invariant(w: World, s: State) {
    && OnlyLastLive(s) && EarlierSettled(s) && BlocksKnown(w, s)
    && (if s.info.completion.None? then
          && Unclaimed(s)
          && (s.proposal.isSet && !s.phase.Committing? && !s.phase.Halted? ==> s.proposal.store == s.committed)
        else ClaimHeld(w, s, s.info.completion.value))
  }

  lemma ProposalStep(w: World, s: State, e: Event)
    requires Invariant(w, s) && Enabled(w, s, e) && (e.Propose? || e.Compare? || e.Abort?)
    ensures Invariant(w, Next(w, s, e))
  {
  }

  lemma ClaimStep(w: World, s: State, e: Event)
    requires Invariant(w, s) && Enabled(w, s, e) && (e.Claim? || e.Launch? || e.LaunchPanics?)
    ensures Invariant(w, Next(w, s, e))
  {
  }

  lemma UpgradeStep(w: World, s: State, e: Event)
    requires Invariant(w, s) && Enabled(w, s, e)
    requires e.AbortForUpgrade? || e.SignalUpgrade?
    ensures Invariant(w, Next(w, s, e))
  {
  }

  lemma WorkerStep(w: World, s: State, e: Event)
    requires Invariant(w, s) && Enabled(w, s, e)
    requires e.Finish? || e.Signal?
    ensures Invariant(w, Next(w, s, e))
  {
    assert e.worker == |s.workers| - 1;
  }

  lemma WaitStep(w: World, s: State, e: Event)
    requires Invariant(w, s) && Enabled(w, s, e) && (e.Finalize? || e.Receive?)
    ensures Invariant(w, Next(w, s, e))
  {
  }

  lemma FinalizeStep(w: World, s: State, e: Event)
    requires Invariant(w, s) && Enabled(w, s, e) && (e.Take? || e.Execute? || e.Commit?)
    ensures Invariant(w, Next(w, s, e))
  {
  }

  lemma InvariantStep(w: World, s: State, e: Event)
    requires Invariant(w, s) && Enabled(w, s, e)
    ensures Invariant(w, Next(w, s, e))
  {
    hide Invariant, Next, Enabled;
    match e
    case Propose(_, _) | Compare | Abort => ProposalStep(w, s, e);
    case Claim | Launch(_) | LaunchPanics => ClaimStep(w, s, e);
    case AbortForUpgrade | SignalUpgrade => UpgradeStep(w, s, e);
    case Finish(_, _) | Signal(_) => WorkerStep(w, s, e);
    case Finalize(_) | Receive => WaitStep(w, s, e);
    case Take | Execute | Commit => FinalizeStep(w, s, e);
  }

  lemma {:induction false} Reachable(w: World, genesis: Store, events: seq<Event>, states: seq<State>, n: nat)
    requires Run(w, genesis, events, states) && n <= |events|
    ensures Invariant(w, states[n])
  {
    if n > 0 {
      hide *;
      RunStep(w, genesis, events, states, n - 1);
      Reachable(w, genesis, events, states, n - 1);
      InvariantStep(w, states[n - 1], events[n - 1]);
    }
  }

  // ---------------------------------------------------------------- tokens, workers, no deadlock

  /** Between claims no worker is live, and every claim had exactly one token sent and received. */
  lemma NoWorkerOutlivesClaim(w: World, genesis: Store, events: seq<Event>, states: seq<State>, n: nat)
    requires Run(w, genesis, events, states) && n <= |events|
    ensures forall c :: 0 <= c < |states[n].channels| ==>
              states[n].channels[c].received <= states[n].channels[c].sent <= 1
    ensures states[n].info.completion.None? ==>
              && (forall k :: 0 <= k < |states[n].workers| ==> states[n].workers[k].Done?)
              && (forall c :: 0 <= c < |states[n].channels| ==> states[n].channels[c].Settled())
  {
    Reachable(w, genesis, events, states, n);
  }

  /** Some handler panicked between its claim and the launch of its worker. */
  ghost predicate Panicked(events: seq<Event>, n: nat)
    requires n <= |events|
  {
    exists i :: 0 <= i < n && events[i].LaunchPanics?
  }

  lemma {:induction false} OrphanedByPanic(w: World, genesis: Store, events: seq<Event>, states: seq<State>, n: nat)
    requires Run(w, genesis, events, states) && n <= |events|
    ensures states[n].orphan <==> Panicked(events, n)
  {
    if n > 0 {
      RunStep(w, genesis, events, states, n - 1);
      OrphanedByPanic(w, genesis, events, states, n - 1);
      hide Run;
      assert Panicked(events, n) <==> Panicked(events, n - 1) || events[n - 1].LaunchPanics?;
    }
  }

  /** The token is there, or comes with the live worker's next one or two steps. */
  ghost predicate TokenComes(w: World, s: State, partial: Store) {
    var k := |s.workers| - 1;
    || Enabled(w, s, Receive)
    || (k >= 0 && Enabled(w, s, Signal(k)) && Enabled(w, Next(w, s, Signal(k)), Receive))
    || (k >= 0 && Enabled(w, s, Finish(k, partial)) && var t := Next(w, s, Finish(k, partial));
        Enabled(w, t, Signal(k)) && Enabled(w, Next(w, t, Signal(k)), Receive))
  }

  lemma TokenOrStuck(w: World, s: State, partial: Store)
    requires Invariant(w, s) && s.phase.Waiting?
    ensures !s.orphan ==> TokenComes(w, s, partial)
    ensures s.orphan ==> forall e :: !Enabled(w, s, e)
  {
  }

  lemma SendsEnabled(w: World, s: State)
    requires Invariant(w, s)
    ensures s.phase.Signalling? ==> Enabled(w, s, SignalUpgrade)
    ensures forall k :: 0 <= k < |s.workers| && s.workers[k].Sending? ==> Enabled(w, s, Signal(k))
  {
  }

  /** A sender finds its channel empty. A waiting FinalizeBlock gets its token if and only if no handler
      panicked between its claim and the launch; after such a panic nothing can ever happen again. */
  lemma NoDeadlock(w: World, genesis: Store, events: seq<Event>, states: seq<State>, n: nat, partial: Store)
    requires Run(w, genesis, events, states) && n <= |events|
    ensures states[n].phase.Signalling? ==> Enabled(w, states[n], SignalUpgrade)
    ensures forall k :: 0 <= k < |states[n].workers| && states[n].workers[k].Sending? ==>
            Enabled(w, states[n], Signal(k))
    ensures states[n].phase.Waiting? ==> (TokenComes(w, states[n], partial) <==> !Panicked(events, n))
    ensures states[n].phase.Waiting? && Panicked(events, n) ==> forall e :: !Enabled(w, states[n], e)
  {
    Reachable(w, genesis, events, states, n);
    OrphanedByPanic(w, genesis, events, states, n);
    SendsEnabled(w, states[n]);
    hide Run, Invariant, Panicked;
    if states[n].phase.Waiting? {
      TokenOrStuck(w, states[n], partial);
    }
  }

  lemma ChannelStep(w: World, s: State, e: Event)
    requires Enabled(w, s, e)
    ensures |s.channels| <= |Next(w, s, e).channels|
    ensures var c := Next(w, s, e).info.completion; c == None || c == s.info.completion || c == Some(|s.channels|)
  {
  }

  lemma AbortStep(w: World, s: State, e: Event)
    requires Enabled(w, s, e) && s.info.aborted && s.info.completion.Some?
    requires Next(w, s, e).info.completion == s.info.completion
    ensures Next(w, s, e).info.aborted
  {
  }

  lemma {:induction false} ChannelsGrow(w: World, genesis: Store, events: seq<Event>, states: seq<State>, i: nat,
                                        j: nat)
    requires Run(w, genesis, events, states) && i <= j <= |events|
    ensures |states[i].channels| <= |states[j].channels|
  {
    hide Next, Enabled;
    if i < j {
      ChannelsGrow(w, genesis, events, states, i, j - 1);
      assert Enabled(w, states[j - 1], events[j - 1]) && states[j] == Next(w, states[j - 1], events[j - 1]);
      ChannelStep(w, states[j - 1], events[j - 1]);
    }
  }

  lemma CompletionKnown(w: World, s: State)
    requires Invariant(w, s) && s.info.aborted
    ensures s.info.completion.Some? && s.info.completion.value < |s.channels|
  {
  }

  /** Once a claim is aborted it stays aborted for as long as it lasts. */
  lemma {:induction false} AbortedSticks(w: World, genesis: Store, events: seq<Event>, states: seq<State>, i: nat,
                                         j: nat)
    requires Run(w, genesis, events, states) && i <= j <= |events|
    requires states[i].info.aborted && states[j].info.completion == states[i].info.completion
    ensures states[j].info.aborted
  {
    hide Next, Enabled, Invariant;
    if i < j {
      Reachable(w, genesis, events, states, i);
      CompletionKnown(w, states[i]);
      ChannelsGrow(w, genesis, events, states, i, j - 1);
      assert Enabled(w, states[j - 1], events[j - 1]) && states[j] == Next(w, states[j - 1], events[j - 1]);
      ChannelStep(w, states[j - 1], events[j - 1]);
      AbortedSticks(w, genesis, events, states, i, j - 1);
      AbortStep(w, states[j - 1], events[j - 1]);
    }
  }

  // ---------------------------------------------------------------- the node refines plain execution

  /** The store after processing the blocks one by one, without any optimism. */
  ghost function Sequential(w: World, genesis: Store, fs: seq<Finalization>): Store {
    if fs == [] then genesis
    else
      var base := Sequential(w, genesis, fs[..|fs| - 1]);
      match w.process(base, fs[|fs| - 1].block)
      case Processed(_, store) => store
      case Failed => base
  }

  /** Each finalization started from the sequential store and gave what a fresh run gives. */
  ghost predicate Sequentially(w: World, genesis: Store, fs: seq<Finalization>) {
    forall i :: 0 <= i < |fs| ==>
      fs[i].base == Sequential(w, genesis, fs[..i]) && fs[i].outcome == w.process(fs[i].base, fs[i].block)
  }

  lemma FinalizationAppends(w: World, genesis: Store, fs: seq<Finalization>, f: Finalization)
    requires Sequentially(w, genesis, fs)
    requires f.base == Sequential(w, genesis, fs) && f.outcome == w.process(f.base, f.block)
    ensures Sequentially(w, genesis, fs + [f])
    ensures Sequential(w, genesis, fs + [f]) == if f.outcome.Failed? then f.base else f.outcome.store
  {
    assert (fs + [f])[..|fs|] == fs;
    forall i | 0 <= i < |fs|
      ensures (fs + [f])[..i] == fs[..i]
    {
    }
  }

  function Current(s: State): Store {
    if s.phase.Committing? then s.phase.store else s.committed
  }

  predicate Finalizes(s: State, e: Event) {
    || (e.Execute? && s.phase.Executing?)
    || (e.Take? && s.phase.Reading? && !s.info.aborted && s.info.hash == s.phase.block.hash)
  }

  lemma OtherwiseUnchanged(w: World, s: State, e: Event)
    requires Enabled(w, s, e) && !Finalizes(s, e)
    ensures Next(w, s, e).finalized == s.finalized && Current(Next(w, s, e)) == Current(s)
  {
  }

  /** Either way of finalizing gives what ProcessBlock gives on the committed store. */
  lemma FinalizesFresh(w: World, s: State, e: Event)
    requires Invariant(w, s) && Enabled(w, s, e) && Finalizes(s, e)
    ensures var t := Next(w, s, e);
            && |t.finalized| == |s.finalized| + 1 && t.finalized[..|s.finalized|] == s.finalized
            && var f := t.finalized[|s.finalized|];
            && f.base == Current(s) && f.outcome == w.process(f.base, f.block)
            && Current(t) == if f.outcome.Failed? then f.base else f.outcome.store
  {
  }

  lemma FreshStep(w: World, genesis: Store, s: State, e: Event)
    requires Invariant(w, s) && Enabled(w, s, e)
    requires Sequentially(w, genesis, s.finalized) && Current(s) == Sequential(w, genesis, s.finalized)
    ensures Sequentially(w, genesis, Next(w, s, e).finalized)
    ensures Current(Next(w, s, e)) == Sequential(w, genesis, Next(w, s, e).finalized)
  {
    hide Sequential, Sequentially, Next, Enabled, Invariant, Current, Finalizes;
    if Finalizes(s, e) {
      FinalizesFresh(w, s, e);
      var fs, f := s.finalized, Next(w, s, e).finalized[|s.finalized|];
      assert Next(w, s, e).finalized == fs + [f];
      FinalizationAppends(w, genesis, fs, f);
    } else {
      OtherwiseUnchanged(w, s, e);
    }
  }

  /** Whatever the proposals, the workers and the interleaving, every FinalizeBlock answers what
      processing its block afresh on the last committed store answers, and that is also what gets
      committed: the run refines plain sequential execution. */
  lemma {:induction false} FinalizeEqualsFresh(w: World, genesis: Store, events: seq<Event>, states: seq<State>, n: nat)
    requires Run(w, genesis, events, states) && n <= |events|
    ensures Sequentially(w, genesis, states[n].finalized)
    ensures Current(states[n]) == Sequential(w, genesis, states[n].finalized)
  {
    if n > 0 {
      hide Sequential, Sequentially, Invariant, Current, Next, Enabled;
      FinalizeEqualsFresh(w, genesis, events, states, n - 1);
      Reachable(w, genesis, events, states, n - 1);
      assert Enabled(w, states[n - 1], events[n - 1]) && states[n] == Next(w, states[n - 1], events[n - 1]);
      FreshStep(w, genesis, states[n - 1], events[n - 1]);
    }
  }

  // ---------------------------------------------------------------- the header of the committed state

  /** A proposal of the current height, and whether decoding and the gas check let it through. */
  datatype Offer = Offer(block: Block, admitted: bool)

  function NextRound(r: seq<Offer>, e: Event): seq<Offer> {
    match e
    case Propose(b, admitted) => r + [Offer(b, admitted)]
    case Commit => []
    case _ => r
  }

  /** The proposals since the last Commit. */
  function Round(events: seq<Event>, n: nat): seq<Offer>
    requires n <= |events|
  {
    if n == 0 then [] else NextRound(Round(events, n - 1), events[n - 1])
  }

  function NextUpgraded(upgraded: bool, e: Event): bool {
    match e
    case Launch(upgrade) => upgrade || upgraded
    case Commit => false
    case _ => upgraded
  }

  /** Whether an upgrade was found planned since the last Commit. */
  function Upgraded(events: seq<Event>, n: nat): bool
    requires n <= |events|
  {
    if n == 0 then false else NextUpgraded(Upgraded(events, n - 1), events[n - 1])
  }

  ghost predicate AnyAdmitted(r: seq<Offer>) {
    exists i :: 0 <= i < |r| && r[i].admitted
  }

  ghost predicate AllAdmittedAre(r: seq<Offer>, hash: Hash) {
    forall i :: 0 <= i < |r| && r[i].admitted ==> r[i].block.hash == hash
  }

  ghost predicate SomeAdmittedIs(r: seq<Offer>, hash: Hash) {
    exists i :: 0 <= i < |r| && r[i].admitted && r[i].block.hash == hash
  }

  /** The proposals of a height after which FinalizeBlock takes the background results: some were
      admitted, all of those are the finalized block, no upgrade is planned, and the block processes. */
  ghost predicate FastRound(w: World, store: Store, r: seq<Offer>, upgraded: bool, b: Block) {
    AnyAdmitted(r) && AllAdmittedAre(r, b.hash) && !upgraded && w.process(store, b).Processed?
  }

  /** The proposal in hand has not reached the shared record yet. */
  predicate Undecided(p: Phase) {
    p.Deciding? || p.Comparing? || p.Aborting?
  }

  function Decided(s: State, r: seq<Offer>): seq<Offer> {
    if Undecided(s.phase) && r != [] then r[..|r| - 1] else r
  }

  ghost predicate WorkerFailed(w: World, s: State, upgraded: bool) {
    !upgraded && !Owes(s) && !StillRunning(s) && !s.orphan && w.process(s.committed, w.blockOf(s.info.hash)).Failed?
  }

  /** How the shared record follows from the proposals of the height. */
  ghost predicate Tracks(w: World, s: State, r: seq<Offer>, upgraded: bool) {
    && (r != [] ==> s.proposal.header == r[|r| - 1].block.hash)
    && (Undecided(s.phase) ==> r != [] && r[|r| - 1].admitted)
    && ((s.phase.Deciding? || s.phase.Comparing?) && r != [] ==> r[|r| - 1].block == s.phase.block)
    && (s.phase.Aborting? && r != [] ==> r[|r| - 1].block.hash != s.info.hash)
    && (!s.phase.Committing? && !s.phase.Halted? ==>
          && (s.info.completion.Some? <==> AnyAdmitted(Decided(s, r)))
          && (upgraded ==> s.info.completion.Some? && !s.phase.Claimed? && !s.orphan && !Live(s))
          && (s.phase.Upgrading? || s.phase.Signalling? ==> upgraded)
          && (s.info.completion.Some? ==>
                && SomeAdmittedIs(Decided(s, r), s.info.hash)
                && (s.info.aborted <==>
                      || !AllAdmittedAre(Decided(s, r), s.info.hash)
                      || (upgraded && !s.phase.Upgrading?)
                      || WorkerFailed(w, s, upgraded))))
  }

  lemma TracksProposal(w: World, s: State, e: Event, r: seq<Offer>, upgraded: bool)
    requires Invariant(w, s) && Tracks(w, s, r, upgraded) && Enabled(w, s, e) && e.Propose?
    ensures Tracks(w, Next(w, s, e), r + [Offer(e.block, e.admitted)], upgraded)
  {
    var t, r' := Next(w, s, e), r + [Offer(e.block, e.admitted)];
    assert r'[..|r'| - 1] == r;
    NotAdmitted(r, Offer(e.block, e.admitted), s.info.hash);
    hide AnyAdmitted, AllAdmittedAre;
  }

  lemma NotAdmitted(r: seq<Offer>, o: Offer, hash: Hash)
    ensures AnyAdmitted(r + [o]) <==> AnyAdmitted(r) || o.admitted
    ensures AllAdmittedAre(r + [o], hash) <==> AllAdmittedAre(r, hash) && (o.admitted ==> o.block.hash == hash)
  {
    var all := r + [o];
    assert all[|r|] == o && forall i :: 0 <= i < |r| ==> all[i] == r[i];
  }

  /** Claiming and comparing put the proposal in hand on the record. */
  lemma TracksClaim(w: World, s: State, r: seq<Offer>, upgraded: bool)
    requires Invariant(w, s) && Tracks(w, s, r, upgraded) && Enabled(w, s, Claim)
    ensures Tracks(w, Next(w, s, Claim), r, upgraded)
  {
    var front, o := r[..|r| - 1], r[|r| - 1];
    assert r == front + [o] && r[|r| - 1] == o;
    NotAdmitted(front, o, o.block.hash);
    NoneAdmitted(front, o.block.hash);
    hide AnyAdmitted, AllAdmittedAre;
  }

  lemma TracksCompare(w: World, s: State, e: Event, r: seq<Offer>, upgraded: bool)
    requires Invariant(w, s) && Tracks(w, s, r, upgraded) && Enabled(w, s, e) && (e.Compare? || e.Abort?)
    ensures Tracks(w, Next(w, s, e), r, upgraded)
  {
    var front, o := r[..|r| - 1], r[|r| - 1];
    assert r == front + [o];
    NotAdmitted(front, o, s.info.hash);
    StillThere(front, o, s.info.hash);
    hide AnyAdmitted, AllAdmittedAre;
  }

  lemma StillThere(r: seq<Offer>, o: Offer, hash: Hash)
    ensures SomeAdmittedIs(r, hash) ==> SomeAdmittedIs(r + [o], hash)
  {
    if i :| 0 <= i < |r| && r[i].admitted && r[i].block.hash == hash {
      assert (r + [o])[i] == r[i];
    }
  }

  lemma NoneAdmitted(r: seq<Offer>, hash: Hash)
    ensures !AnyAdmitted(r) ==> AllAdmittedAre(r, hash)
  {
  }

  lemma TracksLaunch(w: World, s: State, e: Event, r: seq<Offer>, upgraded: bool)
    requires Invariant(w, s) && Tracks(w, s, r, upgraded) && Enabled(w, s, e) && (e.Launch? || e.LaunchPanics?)
    ensures Tracks(w, Next(w, s, e), r, (e.Launch? && e.upgrade) || upgraded)
  {
    hide AnyAdmitted, AllAdmittedAre;
  }

  lemma TracksUpgrade(w: World, s: State, e: Event, r: seq<Offer>, upgraded: bool)
    requires Invariant(w, s) && Tracks(w, s, r, upgraded) && Enabled(w, s, e)
    requires e.AbortForUpgrade? || e.SignalUpgrade?
    ensures Tracks(w, Next(w, s, e), r, upgraded)
  {
    hide AnyAdmitted, AllAdmittedAre;
  }

  lemma TracksWorker(w: World, s: State, e: Event, r: seq<Offer>, upgraded: bool)
    requires Invariant(w, s) && Tracks(w, s, r, upgraded) && Enabled(w, s, e) && (e.Finish? || e.Signal?)
    ensures Tracks(w, Next(w, s, e), r, upgraded)
  {
    assert e.worker == |s.workers| - 1;
    hide AnyAdmitted, AllAdmittedAre;
  }

  lemma TracksFinalize(w: World, s: State, e: Event, r: seq<Offer>, upgraded: bool)
    requires Invariant(w, s) && Tracks(w, s, r, upgraded) && Enabled(w, s, e)
    requires e.Finalize? || e.Receive? || e.Take? || e.Execute?
    ensures Tracks(w, Next(w, s, e), r, upgraded)
  {
    hide AnyAdmitted, AllAdmittedAre;
  }

  lemma TracksCommit(w: World, s: State, r: seq<Offer>, upgraded: bool)
    requires Invariant(w, s) && Enabled(w, s, Commit)
    ensures Tracks(w, Next(w, s, Commit), [], false)
  {
  }

  lemma TracksStep(w: World, s: State, e: Event, r: seq<Offer>, u: bool)
    requires Invariant(w, s) && Tracks(w, s, r, u) && Enabled(w, s, e)
    ensures Tracks(w, Next(w, s, e), NextRound(r, e), NextUpgraded(u, e))
  {
    hide Tracks, Invariant, Next, Enabled;
    match e
    case Propose(_, _) => TracksProposal(w, s, e, r, u);
    case Claim => TracksClaim(w, s, r, u);
    case Compare | Abort => TracksCompare(w, s, e, r, u);
    case Launch(_) | LaunchPanics => TracksLaunch(w, s, e, r, u);
    case AbortForUpgrade | SignalUpgrade => TracksUpgrade(w, s, e, r, u);
    case Finish(_, _) | Signal(_) => TracksWorker(w, s, e, r, u);
    case Finalize(_) | Receive | Take | Execute => TracksFinalize(w, s, e, r, u);
    case Commit => TracksCommit(w, s, r, u);
  }

  lemma StartState(w: World, genesis: Store, events: seq<Event>, states: seq<State>)
    requires Run(w, genesis, events, states)
    ensures |states| == |events| + 1 && states[0] == Initial(genesis)
  {
  }

  lemma TracksInitial(w: World, genesis: Store, events: seq<Event>)
    ensures Tracks(w, Initial(genesis), Round(events, 0), Upgraded(events, 0))
    ensures SlowForAReason(w, Initial(genesis), Round(events, 0), Upgraded(events, 0))
  {
  }

  lemma RoundStep(events: seq<Event>, n: nat)
    requires n < |events|
    ensures Round(events, n + 1) == NextRound(Round(events, n), events[n])
    ensures Upgraded(events, n + 1) == NextUpgraded(Upgraded(events, n), events[n])
  {
  }

  lemma {:induction false} TracksRun(w: World, genesis: Store, events: seq<Event>, states: seq<State>, n: nat)
    requires Run(w, genesis, events, states) && n <= |events|
    ensures Tracks(w, states[n], Round(events, n), Upgraded(events, n))
  {
    hide *;
    if n == 0 {
      StartState(w, genesis, events, states);
      TracksInitial(w, genesis, events);
    } else {
      RunStep(w, genesis, events, states, n - 1);
      RoundStep(events, n - 1);
      TracksRun(w, genesis, events, states, n - 1);
      Reachable(w, genesis, events, states, n - 1);
      TracksStep(w, states[n - 1], events[n - 1], Round(events, n - 1), Upgraded(events, n - 1));
    }
  }

  /** One finalization: which path it took, and which header it hands to Commit. */
  ghost predicate HeaderFollows(w: World, s: State, r: seq<Offer>, upgraded: bool, f: Finalization) {
    && (f.fast <==> FastRound(w, s.committed, r, upgraded, f.block))
    && (f.header != f.block.hash <==>
          && FastRound(w, s.committed, r, upgraded, f.block)
          && r != [] && !r[|r| - 1].admitted && r[|r| - 1].block.hash != f.block.hash)
  }

  lemma HeaderOfTake(w: World, s: State, r: seq<Offer>, upgraded: bool)
    requires Invariant(w, s) && Tracks(w, s, r, upgraded) && s.phase.Reading?
    ensures (!s.info.aborted && s.info.hash == s.phase.block.hash) <==>
            FastRound(w, s.committed, r, upgraded, s.phase.block)
    ensures FastRound(w, s.committed, r, upgraded, s.phase.block) ==>
              && r != [] && s.proposal.header == r[|r| - 1].block.hash
              && (r[|r| - 1].admitted ==> s.proposal.header == s.phase.block.hash)
  {
    assert Decided(s, r) == r;
  }

  lemma HeaderStep(w: World, s: State, e: Event, r: seq<Offer>, upgraded: bool)
    requires Invariant(w, s) && Tracks(w, s, r, upgraded) && Enabled(w, s, e) && Finalizes(s, e)
    requires e.Execute? ==> !FastRound(w, s.committed, r, upgraded, s.phase.block)
    ensures var t := Next(w, s, e);
            |t.finalized| > 0 && HeaderFollows(w, s, r, upgraded, t.finalized[|t.finalized| - 1])
  {
    if e.Take? {
      HeaderOfTake(w, s, r, upgraded);
    }
    hide FastRound;
  }

  /** A height is executed again only when its proposals did not allow the fast path. */
  ghost predicate SlowForAReason(w: World, s: State, r: seq<Offer>, upgraded: bool) {
    s.phase.Executing? ==> !FastRound(w, s.committed, r, upgraded, s.phase.block)
  }

  lemma SlowStep(w: World, s: State, e: Event, r: seq<Offer>, upgraded: bool)
    requires Invariant(w, s) && Tracks(w, s, r, upgraded) && SlowForAReason(w, s, r, upgraded) && Enabled(w, s, e)
    ensures SlowForAReason(w, Next(w, s, e), NextRound(r, e), NextUpgraded(upgraded, e))
  {
    if e.Take? {
      HeaderOfTake(w, s, r, upgraded);
    } else if e.Finalize? && s.info.completion.None? {
      assert Decided(s, r) == r;
    }
    hide AllAdmittedAre;
  }

  lemma {:induction false} SlowRun(w: World, genesis: Store, events: seq<Event>, states: seq<State>, n: nat)
    requires Run(w, genesis, events, states) && n <= |events|
    ensures SlowForAReason(w, states[n], Round(events, n), Upgraded(events, n))
  {
    hide *;
    if n == 0 {
      StartState(w, genesis, events, states);
      TracksInitial(w, genesis, events);
    } else {
      RunStep(w, genesis, events, states, n - 1);
      RoundStep(events, n - 1);
      SlowRun(w, genesis, events, states, n - 1);
      TracksRun(w, genesis, events, states, n - 1);
      Reachable(w, genesis, events, states, n - 1);
      SlowStep(w, states[n - 1], events[n - 1], Round(events, n - 1), Upgraded(events, n - 1));
    }
  }

  /** Which path a FinalizeBlock takes and which header the committed state carries, from the proposals
      of its height alone: the fast path exactly after a fast round, and the wrong header exactly when
      moreover the last proposal was another block that was turned away. */
  lemma CommittedHeader(w: World, genesis: Store, events: seq<Event>, states: seq<State>, n: nat)
    requires Run(w, genesis, events, states) && n < |events| && Finalizes(states[n], events[n])
    ensures |states[n + 1].finalized| > 0
    ensures HeaderFollows(w, states[n], Round(events, n), Upgraded(events, n),
            states[n + 1].finalized[|states[n + 1].finalized| - 1])
  {
    RunStep(w, genesis, events, states, n);
    Reachable(w, genesis, events, states, n);
    TracksRun(w, genesis, events, states, n);
    SlowRun(w, genesis, events, states, n);
    hide Run, Tracks, Invariant, Next, Enabled, FastRound, HeaderFollows;
    HeaderStep(w, states[n], events[n], Round(events, n), Upgraded(events, n));
  }

  lemma Start(w: World, genesis: Store)
    ensures Run(w, genesis, [], [Initial(genesis)])
  {
  }

  lemma Extend(w: World, genesis: Store, events: seq<Event>, states: seq<State>, e: Event)
    requires Run(w, genesis, events, states) && Enabled(w, states[|events|], e)
    ensures Run(w, genesis, events + [e], states + [Next(w, states[|events|], e)])
    ensures |states| == |events| + 1
  {
    hide Next, Enabled;
  }

  /** A claim whose worker succeeds and signals before anything else happens. */
  lemma CompletedClaim(w: World, genesis: Store, a: Block) returns (events: seq<Event>, states: seq<State>)
    requires w.Knows(a) && w.process(genesis, a).Processed?
    ensures Run(w, genesis, events, states) && |states| == |events| + 1
    ensures var p := w.process(genesis, a);
            states[|events|] == State(genesis, ProposalState(true, p.store, a.hash),
                                      Info(a.hash, false, Some(0), Some(p.results)),
                                      [Channel(1, 0)], [Done], Idle, false, [])
  {
    hide Run;
    events, states := [Propose(a, true)], [Initial(genesis), Next(w, Initial(genesis), Propose(a, true))];
    Start(w, genesis);
    Extend(w, genesis, [], [Initial(genesis)], Propose(a, true));
    assert [] + [Propose(a, true)] == events;
    assert [Initial(genesis)] + [Next(w, Initial(genesis), Propose(a, true))] == states;
    Extend(w, genesis, events, states, Claim);
    events, states := events + [Claim], states + [Next(w, states[1], Claim)];
    Extend(w, genesis, events, states, Launch(false));
    events, states := events + [Launch(false)], states + [Next(w, states[2], Launch(false))];
    Extend(w, genesis, events, states, Finish(0, genesis));
    events, states := events + [Finish(0, genesis)], states + [Next(w, states[3], Finish(0, genesis))];
    Extend(w, genesis, events, states, Signal(0));
    events, states := events + [Signal(0)], states + [Next(w, states[4], Signal(0))];
  }

  /** A turned-away proposal after a completed claim leaves its header on the committed state. */
  lemma RejectedProposalLeavesHeader(w: World, genesis: Store, a: Block, b: Block)
    returns (events: seq<Event>, states: seq<State>)
    requires w.Knows(a) && w.Knows(b) && a.hash != b.hash && w.process(genesis, a).Processed?
    ensures Run(w, genesis, events, states) && |states| == |events| + 1
    ensures |states[|events|].finalized| == 1
    ensures states[|events|].finalized[0].block == a && states[|events|].finalized[0].header == b.hash
  {
    hide Run;
    events, states := CompletedClaim(w, genesis, a);
    var n := |events|;
    Extend(w, genesis, events, states, Propose(b, false));
    events, states := events + [Propose(b, false)], states + [Next(w, states[n], Propose(b, false))];
    Extend(w, genesis, events, states, Finalize(a));
    events, states := events + [Finalize(a)], states + [Next(w, states[n + 1], Finalize(a))];
    Extend(w, genesis, events, states, Receive);
    events, states := events + [Receive], states + [Next(w, states[n + 2], Receive)];
    Extend(w, genesis, events, states, Take);
    events, states := events + [Take], states + [Next(w, states[n + 3], Take)];
  }

  /** A handler that panics between its claim and the launch leaves FinalizeBlock waiting for ever. */
  lemma StuckAfterPanic(w: World, genesis: Store, a: Block) returns (events: seq<Event>, states: seq<State>)
    requires w.Knows(a)
    ensures Run(w, genesis, events, states) && |states| == |events| + 1
    ensures states[|events|].phase.Waiting? && forall e :: !Enabled(w, states[|events|], e)
  {
    Start(w, genesis);
    events, states := [], [Initial(genesis)];
    hide Run;
    Extend(w, genesis, events, states, Propose(a, true));
    events, states := events + [Propose(a, true)], states + [Next(w, states[0], Propose(a, true))];
    Extend(w, genesis, events, states, Claim);
    events, states := events + [Claim], states + [Next(w, states[1], Claim)];
    Extend(w, genesis, events, states, LaunchPanics);
    events, states := events + [LaunchPanics], states + [Next(w, states[2], LaunchPanics)];
    Extend(w, genesis, events, states, Finalize(a));
    events, states := events + [Finalize(a)], states + [Next(w, states[3], Finalize(a))];
  }
}
