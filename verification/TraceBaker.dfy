/** Progress of the trace baker: out-of-order completions folded into a persisted contiguous
    watermark, with gap skipping (evmrpc/trace_baker.go). */
module TraceBaker {

  /** `windowBlocks <= 0` or a missing tip function disables the window; `queueSize` is the
      capacity of the progress channel. */
  datatype Config = Config(windowBlocks: int, hasTip: bool, queueSize: nat) {
    predicate Windowed() {
      windowBlocks > 0 && hasTip
    }
  }

  function WindowFloor(c: Config, tip: int): nat {
    if tip - c.windowBlocks < 0 then 0 else tip - c.windowBlocks
  }

  // ---------------------------------------------------------------- specification of one report

  function Above(done: set<nat>, last: nat): set<nat> {
    set h | h in done && h > last
  }

  lemma AboveShrinks(done: set<nat>, last: nat)
    requires last + 1 in done
    ensures |Above(done, last + 1)| < |Above(done, last)|
  {
    assert Above(done, last) == Above(done, last + 1) + {last + 1};
  }

  /** The end of the unbroken run of done heights behind `last`. */
  function AdvanceTo(last: nat, done: set<nat>): (r: nat)
    ensures r >= last && r + 1 !in done
    ensures forall h :: last < h <= r ==> h in done
    decreases |Above(done, last)|
  {
    if last + 1 in done then
      AboveShrinks(done, last);
      AdvanceTo(last + 1, done)
    else last
  }

  lemma AdvanceToIsUnique(last: nat, done: set<nat>, r: nat)
    requires r >= last && r + 1 !in done && forall h :: last < h <= r ==> h in done
    ensures AdvanceTo(last, done) == r
  {
  }

  ghost predicate IsMin(done: set<nat>, m: nat) {
    m in done && forall h :: h in done ==> m <= h
  }

  /** Where a gap is skipped to when `done` is buffered behind `last`: the window floor, or just
      below the least buffered height once the buffer is over its limit, or nowhere. */
  ghost predicate SkipsTo(c: Config, last: nat, done: set<nat>, tip: int, skipTo: nat) {
    if done == {} then skipTo == last
    else if c.Windowed() then skipTo == WindowFloor(c, tip)
    else if 2 * c.queueSize < 1 || |done| <= 2 * c.queueSize then skipTo == last
    else IsMin(done, skipTo + 1)
  }

  /** The watermark, the heights done above it, and the watermarks written to the store. */
  datatype Progress = Progress(last: nat, done: set<nat>, written: seq<nat>)

  function Persist(p: Progress, last: nat, done: set<nat>): Progress {
    Progress(last, done, if last != p.last then p.written + [last] else p.written)
  }

  /** The effect of one completed height on the progress loop. */
  ghost predicate Reports(c: Config, p: Progress, height: nat, tip: int, p': Progress) {
    if height <= p.last then p' == p
    else
      var l1 := AdvanceTo(p.last, p.done + {height});
      var d1 := Above(p.done + {height}, l1);
      exists skipTo: nat :: SkipsTo(c, l1, d1, tip, skipTo) && p' ==
        if skipTo > l1 then var l2 := AdvanceTo(skipTo, Above(d1, skipTo)); Persist(p, l2, Above(d1, l2))
        else Persist(p, l1, d1)
  }

  /** Buffered heights leave a hole right behind the watermark. */
  ghost predicate Buffered(p: Progress) {
    forall h :: h in p.done ==> h > p.last + 1
  }

  // ---------------------------------------------------------------- the loop body

  method AdvanceContiguous(last: nat, doneHeights: set<nat>) returns (last': nat, doneHeights': set<nat>)
    requires forall h :: h in doneHeights ==> h > last
    ensures last' == AdvanceTo(last, doneHeights) && doneHeights' == Above(doneHeights, last')
  {
    last', doneHeights' := last, doneHeights;
    while last' + 1 in doneHeights'
      invariant last <= last' && doneHeights' == Above(doneHeights, last')
      invariant forall h :: last < h <= last' ==> h in doneHeights
      decreases |doneHeights'|
    {
      var next := last' + 1;
      ghost var before := doneHeights';
      doneHeights' := doneHeights' - {next};
      assert |doneHeights'| < |before|;
      last' := next;
    }
    AdvanceToIsUnique(last, doneHeights, last');
  }

  method ProgressGapSkipTo(c: Config, last: nat, doneHeights: set<nat>, tip: int) returns (skipTo: nat)
    requires forall h :: h in doneHeights ==> h > last + 1
    ensures SkipsTo(c, last, doneHeights, tip, skipTo)
  {
    if doneHeights == {} {
      return last;
    }
    if c.Windowed() {
      return WindowFloor(c, tip);
    }
    var limit := 2 * c.queueSize;
    if limit < 1 || |doneHeights| <= limit {
      return last;
    }
    skipTo := BelowLeast(last, doneHeights);
  }

  /** The loop over the buffer, which visits its heights in an arbitrary order. */
  method BelowLeast(last: nat, doneHeights: set<nat>) returns (skipTo: nat)
    requires doneHeights != {} && forall h :: h in doneHeights ==> h > last + 1
    ensures IsMin(doneHeights, skipTo + 1)
  {
    hide IsMin;
    skipTo := last;
    var rest := doneHeights;
    ghost var visited: set<nat> := {};
    while rest != {}
      invariant forall h :: h in doneHeights <==> h in rest || h in visited
      invariant visited == {} ==> skipTo == last
      invariant visited != {} ==> skipTo > last && IsMin(visited, skipTo + 1)
      decreases |rest|
    {
      var height :| height in rest;
      MinStep(visited, skipTo, height);
      if skipTo == last || height - 1 < skipTo {
        skipTo := height - 1;
      }
      visited := visited + {height};
      rest := rest - {height};
    }
    assert visited == doneHeights;
  }

  lemma MinStep(visited: set<nat>, skipTo: nat, height: nat)
    requires height > 0 && (visited != {} ==> IsMin(visited, skipTo + 1))
    ensures IsMin(visited + {height}, if visited == {} || height - 1 < skipTo then height else skipTo + 1)
  {
    assert visited == {} ==> visited + {height} == {height};
  }

  /** The state of progressLoop. */
  class ProgressLoop {
    const c: Config
    var last: nat
    var doneHeights: set<nat>
    var written: seq<nat>

    ghost function State(): Progress
      reads this
    {
      Progress(last, doneHeights, written)
    }

    constructor (c: Config, last: nat)
      ensures this.c == c && State() == Progress(last, {}, [])
    {
      this.c, this.last, doneHeights, written := c, last, {}, [];
    }

    method Report(height: nat, tip: int)
      requires Buffered(State())
      modifies this
      ensures Reports(c, old(State()), height, tip, State()) && Buffered(State())
    {
      hide SkipsTo, AdvanceTo;
      if height <= last {
        return;
      }
      var l1, d1 := AdvanceContiguous(last, doneHeights + {height});
      var skipTo := ProgressGapSkipTo(c, l1, d1, tip);
      var l2, d2 := l1, d1;
      if skipTo > l1 {
        l2, d2 := AdvanceContiguous(skipTo, Above(d1, skipTo));
        assert Above(Above(d1, skipTo), l2) == Above(d1, l2);
      }
      if l2 != last {
        written := written + [l2];
      }
      last, doneHeights := l2, d2;
    }
  }

  // ---------------------------------------------------------------- runs

  /** One block handed to a worker: whether each tracer succeeded, and the tip when the progress
      loop looks at the completion. */
  datatype Bake = Bake(height: nat, tracers: seq<bool>, tip: int)

  predicate AllBaked(tracers: seq<bool>) {
    forall i :: 0 <= i < |tracers| ==> tracers[i]
  }

  /** bakeBlock runs every tracer, also after a failure, and reports only a full success. */
  method BakeBlock(tracers: seq<bool>) returns (report: bool)
    ensures report == AllBaked(tracers)
  {
    report := true;
    for i := 0 to |tracers|
      invariant report == AllBaked(tracers[..i])
    {
      assert tracers[..i + 1] == tracers[..i] + [tracers[i]];
      report := tracers[i] && report;
    }
    assert tracers[..|tracers|] == tracers;
  }

  ghost predicate Step(c: Config, p: Progress, b: Bake, p': Progress) {
    if AllBaked(b.tracers) then Reports(c, p, b.height, b.tip, p') else p' == p
  }

  /** The progress states of a run that takes the bakes in the given order. */
  ghost predicate Run(c: Config, start: nat, bakes: seq<Bake>, states: seq<Progress>) {
    && |states| == |bakes| + 1 && states[0] == Progress(start, {}, [])
    && forall i {:trigger bakes[i]} :: 0 <= i < |bakes| ==> Step(c, states[i], bakes[i], states[i + 1])
  }

  lemma StartState(c: Config, start: nat, bakes: seq<Bake>, states: seq<Progress>)
    requires Run(c, start, bakes, states)
    ensures |states| == |bakes| + 1 && states[0] == Progress(start, {}, [])
  {
  }

  lemma RunStep(c: Config, start: nat, bakes: seq<Bake>, states: seq<Progress>, n: nat)
    requires Run(c, start, bakes, states) && n < |bakes|
    ensures |states| == |bakes| + 1 && Step(c, states[n], bakes[n], states[n + 1])
  {
  }

  /** Heights reported as baked for all tracers among the first n bakes. */
  ghost function Baked(bakes: seq<Bake>, n: nat): set<nat>
    requires n <= |bakes|
  {
    if n == 0 then {}
    else Baked(bakes, n - 1) + if AllBaked(bakes[n - 1].tracers) then {bakes[n - 1].height} else {}
  }

  lemma BakedStep(bakes: seq<Bake>, n: nat)
    requires n < |bakes|
    ensures Baked(bakes, n + 1) ==
            if AllBaked(bakes[n].tracers) then Baked(bakes, n) + {bakes[n].height} else Baked(bakes, n)
  {
  }

  ghost predicate Ascending(start: nat, ws: seq<nat>) {
    && (forall i :: 0 <= i < |ws| ==> start < ws[i])
    && (forall i, j :: 0 <= i < j < |ws| ==> ws[i] < ws[j])
  }

  /** Nothing reported is lost, nothing unreported is buffered, the watermarks written only grow
      and the last one is the current watermark. */
  ghost predicate Accounted(start: nat, p: Progress, baked: set<nat>) {
    && Buffered(p) && p.last >= start
    && (forall h :: h in p.done ==> h in baked)
    && (forall h :: h in baked ==> h <= p.last || h in p.done)
    && Ascending(start, p.written)
    && p.last == if p.written == [] then start else p.written[|p.written| - 1]
  }

  /** Every height above the start and the window floor, up to the watermark, was baked. */
  ghost predicate Covered(start: nat, floor: nat, p: Progress, baked: set<nat>) {
    forall h :: start < h <= p.last && h > floor ==> h in baked
  }

  lemma AccountedStep(c: Config, start: nat, p: Progress, height: nat, tip: int, p': Progress, baked: set<nat>)
    requires Accounted(start, p, baked) && Reports(c, p, height, tip, p')
    ensures Accounted(start, p', baked + {height})
  {
    hide SkipsTo, AdvanceTo;
    if height > p.last {
      var l1 := AdvanceTo(p.last, p.done + {height});
      var d1 := Above(p.done + {height}, l1);
      var skipTo: nat :| SkipsTo(c, l1, d1, tip, skipTo) && p' ==
        if skipTo > l1 then var l2 := AdvanceTo(skipTo, Above(d1, skipTo)); Persist(p, l2, Above(d1, l2))
        else Persist(p, l1, d1);
      assert p'.last >= l1 && p'.done == Above(p.done + {height}, p'.last);
      assert p'.last + 1 !in p'.done;
    }
  }

  lemma CoveredStep(c: Config, start: nat, floor: nat, p: Progress, height: nat, tip: int, p': Progress,
                    baked: set<nat>)
    requires c.Windowed() && floor <= WindowFloor(c, tip)
    requires Accounted(start, p, baked) && Covered(start, floor, p, baked) && Reports(c, p, height, tip, p')
    ensures Covered(start, WindowFloor(c, tip), p', baked + {height})
  {
    hide AdvanceTo;
    if height > p.last {
      var l1 := AdvanceTo(p.last, p.done + {height});
      var d1 := Above(p.done + {height}, l1);
      var skipTo: nat :| SkipsTo(c, l1, d1, tip, skipTo) && p' ==
        if skipTo > l1 then var l2 := AdvanceTo(skipTo, Above(d1, skipTo)); Persist(p, l2, Above(d1, l2))
        else Persist(p, l1, d1);
      forall h | start < h <= p'.last && h > WindowFloor(c, tip)
        ensures h in baked + {height}
      {
        assert h <= p.last || h in p.done + {height} by {
          if p.last < h && h > l1 {
            assert skipTo == WindowFloor(c, tip) && h in Above(d1, skipTo);
          }
        }
      }
    }
  }

  lemma {:induction false} RunAccounted(c: Config, start: nat, bakes: seq<Bake>, states: seq<Progress>, n: nat)
    requires Run(c, start, bakes, states) && n <= |bakes|
    ensures Accounted(start, states[n], Baked(bakes, n))
  {
    hide Run;
    if n == 0 {
      StartState(c, start, bakes, states);
    } else {
      hide Run, Reports, Accounted, Baked, AllBaked;
      RunStep(c, start, bakes, states, n - 1);
      BakedStep(bakes, n - 1);
      RunAccounted(c, start, bakes, states, n - 1);
      if AllBaked(bakes[n - 1].tracers) {
        AccountedStep(c, start, states[n - 1], bakes[n - 1].height, bakes[n - 1].tip, states[n], Baked(bakes, n - 1));
      }
    }
  }

  ghost predicate TipNeverFalls(bakes: seq<Bake>) {
    forall i, j :: 0 <= i < j < |bakes| ==> bakes[i].tip <= bakes[j].tip
  }

  /** In window mode, whatever the completion order: every height above the start and the window
      floor of the last tip, up to the watermark, was baked for all tracers. */
  lemma {:induction false} WindowCovered(c: Config, start: nat, bakes: seq<Bake>, states: seq<Progress>, n: nat)
    requires c.Windowed() && Run(c, start, bakes, states) && TipNeverFalls(bakes) && n <= |bakes|
    ensures Covered(start, if n == 0 then 0 else WindowFloor(c, bakes[n - 1].tip), states[n], Baked(bakes, n))
  {
    hide Run;
    if n == 0 {
      StartState(c, start, bakes, states);
    } else {
      hide Reports, Accounted, Covered, Baked, AllBaked;
      RunStep(c, start, bakes, states, n - 1);
      BakedStep(bakes, n - 1);
      WindowCovered(c, start, bakes, states, n - 1);
      var before, floor := if n == 1 then 0 else WindowFloor(c, bakes[n - 2].tip), WindowFloor(c, bakes[n - 1].tip);
      if AllBaked(bakes[n - 1].tracers) {
        RunAccounted(c, start, bakes, states, n - 1);
        var b, baked := bakes[n - 1], Baked(bakes, n - 1);
        CoveredStep(c, start, before, states[n - 1], b.height, b.tip, states[n], baked);
      } else {
        CoveredLater(start, before, floor, states[n], Baked(bakes, n));
      }
    }
  }

  lemma CoveredLater(start: nat, floor: nat, floor': nat, p: Progress, baked: set<nat>)
    requires Covered(start, floor, p, baked) && floor <= floor'
    ensures Covered(start, floor', p, baked)
  {
  }

  /** The watermark a baker starts from: the stored one, or the window floor when none is stored. */
  function StartingLastBaked(c: Config, stored: nat, tip: int): nat {
    if stored > 0 || !c.hasTip || c.windowBlocks <= 0 then stored else WindowFloor(c, tip)
  }

  /** Starting at the window floor skips nothing the window still holds: coverage holds from the
      stored watermark on. */
  lemma NothingSkippedAtStart(c: Config, stored: nat, tip: int, bakes: seq<Bake>, states: seq<Progress>, n: nat)
    requires c.Windowed() && Run(c, StartingLastBaked(c, stored, tip), bakes, states)
    requires TipNeverFalls(bakes) && n <= |bakes|
    requires forall i :: 0 <= i < |bakes| ==> tip <= bakes[i].tip
    ensures Covered(stored, WindowFloor(c, if n == 0 then tip else bakes[n - 1].tip), states[n], Baked(bakes, n))
  {
    WindowCovered(c, StartingLastBaked(c, stored, tip), bakes, states, n);
  }

  // ---------------------------------------------------------------- buffer bound without a window

  lemma SmallerSubset(a: set<nat>, b: set<nat>)
    requires a <= b
    ensures |a| <= |b|
    ensures a != b ==> |a| < |b|
  {
    assert b == a + (b - a);
    if a != b {
      assert b - a != {};
    }
  }

  lemma BufferStep(c: Config, p: Progress, height: nat, tip: int, p': Progress)
    requires !c.Windowed() && c.queueSize > 0
    requires Buffered(p) && |p.done| <= 2 * c.queueSize && Reports(c, p, height, tip, p')
    ensures |p'.done| <= 2 * c.queueSize
  {
    hide AdvanceTo;
    if height > p.last {
      var all := p.done + {height};
      var l1 := AdvanceTo(p.last, all);
      var d1 := Above(all, l1);
      SmallerSubset(d1, all);
      var skipTo: nat :| SkipsTo(c, l1, d1, tip, skipTo) && p' ==
        if skipTo > l1 then var l2 := AdvanceTo(skipTo, Above(d1, skipTo)); Persist(p, l2, Above(d1, l2))
        else Persist(p, l1, d1);
      if |d1| > 2 * c.queueSize {
        assert skipTo + 1 in d1 && skipTo > l1;
        assert skipTo + 1 in Above(d1, skipTo);
        assert skipTo + 1 !in p'.done;
        SmallerSubset(p'.done, d1);
      }
    }
  }

  /** Without a window the buffer never stays above twice the queue size. */
  lemma {:induction false} BufferBounded(c: Config, start: nat, bakes: seq<Bake>, states: seq<Progress>, n: nat)
    requires !c.Windowed() && c.queueSize > 0 && Run(c, start, bakes, states) && n <= |bakes|
    ensures |states[n].done| <= 2 * c.queueSize
  {
    hide Run;
    if n == 0 {
      StartState(c, start, bakes, states);
    } else {
      hide Reports, Buffered, Ascending, Baked, AllBaked;
      RunStep(c, start, bakes, states, n - 1);
      BufferBounded(c, start, bakes, states, n - 1);
      if AllBaked(bakes[n - 1].tracers) {
        RunAccounted(c, start, bakes, states, n - 1);
        BufferStep(c, states[n - 1], bakes[n - 1].height, bakes[n - 1].tip, states[n]);
      }
    }
  }

  // ---------------------------------------------------------------- order independence

  /** The report skips no gap. */
  ghost predicate Quiet(c: Config, p: Progress, height: nat, tip: int) {
    height > p.last ==>
      var l1 := AdvanceTo(p.last, p.done + {height});
      forall skipTo: nat :: SkipsTo(c, l1, Above(p.done + {height}, l1), tip, skipTo) ==> skipTo <= l1
  }

  lemma QuietStep(c: Config, start: nat, p: Progress, height: nat, tip: int, p': Progress, baked: set<nat>)
    requires Quiet(c, p, height, tip) && Reports(c, p, height, tip, p')
    requires p.last == AdvanceTo(start, baked) && p.done == Above(baked, p.last)
    ensures p'.last == AdvanceTo(start, baked + {height}) && p'.done == Above(baked + {height}, p'.last)
  {
    hide SkipsTo;
    if height > p.last {
      var l1 := AdvanceTo(p.last, p.done + {height});
      assert Above(p.done + {height}, l1) == Above(baked + {height}, l1);
      AdvanceToIsUnique(start, baked + {height}, l1);
    } else {
      AdvanceToIsUnique(start, baked + {height}, p.last);
      assert Above(baked + {height}, p.last) == Above(baked, p.last);
    }
  }

  /** When no gap is skipped, watermark and buffer depend only on the set of baked heights. */
  lemma {:induction false} OrderIrrelevant(c: Config, start: nat, bakes: seq<Bake>, states: seq<Progress>, n: nat)
    requires Run(c, start, bakes, states) && n <= |bakes|
    requires forall i :: 0 <= i < n && AllBaked(bakes[i].tracers) ==> Quiet(c, states[i], bakes[i].height, bakes[i].tip)
    ensures states[n].last == AdvanceTo(start, Baked(bakes, n))
    ensures states[n].done == Above(Baked(bakes, n), states[n].last)
  {
    if n == 0 {
      AdvanceToIsUnique(start, {}, start);
    } else {
      hide Run, Quiet, Reports, AdvanceTo, Baked, AllBaked;
      BakedStep(bakes, n - 1);
      RunStep(c, start, bakes, states, n - 1);
      OrderIrrelevant(c, start, bakes, states, n - 1);
      if AllBaked(bakes[n - 1].tracers) {
        QuietStep(c, start, states[n - 1], bakes[n - 1].height, bakes[n - 1].tip, states[n], Baked(bakes, n - 1));
      }
    }
  }

  // ---------------------------------------------------------------- catch-up

  /** The first height catch-up bakes for a given watermark and tip. */
  function CatchUpFrom(c: Config, last: nat, tip: int): nat {
    if c.windowBlocks > 0 && last + 1 <= WindowFloor(c, tip) then WindowFloor(c, tip) + 1 else last + 1
  }

  /** The heights catchUpLoop bakes, in order. */
  method CatchUp(c: Config, last: nat, tip: int) returns (heights: seq<nat>)
    ensures (last == 0 && c.windowBlocks <= 0) || tip <= last ==> heights == []
    ensures !((last == 0 && c.windowBlocks <= 0) || tip <= last) ==>
              && |heights| == tip + 1 - CatchUpFrom(c, last, tip)
              && forall i :: 0 <= i < |heights| ==> heights[i] == CatchUpFrom(c, last, tip) + i
  {
    heights := [];
    if last <= 0 && c.windowBlocks <= 0 {
      return;
    }
    if tip <= last {
      return;
    }
    var from := last + 1;
    if c.windowBlocks > 0 && from <= WindowFloor(c, tip) {
      from := WindowFloor(c, tip) + 1;
    }
    for h := from to tip + 1
      invariant |heights| == h - from && forall i :: 0 <= i < |heights| ==> heights[i] == from + i
    {
      heights := heights + [h];
    }
  }

  /** In window mode, heights are buffered only behind the window floor of an earlier report. */
  lemma FloorStep(c: Config, p: Progress, height: nat, tip: int, p': Progress, floor: nat)
    requires c.Windowed() && floor <= WindowFloor(c, tip) && Reports(c, p, height, tip, p')
    requires p.done != {} ==> floor <= p.last
    ensures p'.done != {} ==> floor <= p'.last
  {
    hide AdvanceTo;
    if height > p.last {
      var l1 := AdvanceTo(p.last, p.done + {height});
      var d1 := Above(p.done + {height}, l1);
      var skipTo: nat :| SkipsTo(c, l1, d1, tip, skipTo) && p' ==
        if skipTo > l1 then var l2 := AdvanceTo(skipTo, Above(d1, skipTo)); Persist(p, l2, Above(d1, l2))
        else Persist(p, l1, d1);
      assert p'.done != {} ==> d1 != {};
    }
  }

  lemma {:induction false} BufferedBehindFloor(c: Config, start: nat, tip: int, bakes: seq<Bake>,
                                               states: seq<Progress>, n: nat)
    requires c.Windowed() && Run(c, start, bakes, states) && n <= |bakes|
    requires forall i :: 0 <= i < |bakes| ==> tip <= bakes[i].tip
    ensures states[n].done != {} ==> WindowFloor(c, tip) <= states[n].last
  {
    hide Run;
    if n == 0 {
      StartState(c, start, bakes, states);
    } else {
      hide Reports, AllBaked;
      RunStep(c, start, bakes, states, n - 1);
      BufferedBehindFloor(c, start, tip, bakes, states, n - 1);
      if AllBaked(bakes[n - 1].tracers) {
        FloorStep(c, states[n - 1], bakes[n - 1].height, bakes[n - 1].tip, states[n], WindowFloor(c, tip));
      }
    }
  }

  /** Once every height that catch-up asks for is baked, in whatever order and between whatever other
      bakes, the watermark has reached the tip that catch-up started from. */
  lemma CatchUpReachesTip(c: Config, start: nat, tip: nat, bakes: seq<Bake>, states: seq<Progress>, n: nat)
    requires c.hasTip && Run(c, start, bakes, states) && n <= |bakes|
    requires forall i :: 0 <= i < |bakes| ==> tip <= bakes[i].tip
    requires forall h :: CatchUpFrom(c, start, tip) <= h <= tip ==> h in Baked(bakes, n)
    ensures tip <= states[n].last
  {
    RunAccounted(c, start, bakes, states, n);
    if c.Windowed() {
      BufferedBehindFloor(c, start, tip, bakes, states, n);
    }
    hide Run, Baked, Ascending;
    var from, p, baked := CatchUpFrom(c, start, tip), states[n], Baked(bakes, n);
    var next := if from <= p.last + 1 then p.last + 1 else from;
    assert next <= tip ==> next in baked;
  }
}
