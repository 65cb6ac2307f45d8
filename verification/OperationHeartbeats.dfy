/** Exactly how often heartbeats must land for live work to be safe from the sweep
    that interrupts stale records. */
module OperationHeartbeats {

  import opened Common
  import opened OperationRegistry
  import opened OperationProtocol
  import opened OperationRuns

  /** No accepting tracker is further than `gap` from its last committed sweep. */
  ghost predicate Punctual(w: World, gap: nat) {
    forall me :: me in w.trackers && w.trackers[me].accepting ==> w.clock - w.trackers[me].committedAt <= gap
  }

  ghost predicate PunctualRun(w: World, run: seq<Event>, gap: nat)
    decreases |run|
  {
    && Punctual(w, gap)
    && (run == [] || (Enabled(w, run[0]) && PunctualRun(Step(w, run[0]), run[1..], gap)))
  }

  /** No live work of a steady tracker would be interrupted by a stale sweep run now
      with threshold `staleAfter`. */
  ghost predicate LiveWorkSafe(w: World, staleAfter: int) {
    forall me, o :: me in w.trackers && Steady(w.trackers[me]) && o in w.registry && Live(w.trackers[me], me, o)
               ==> !o.StaleAt(w.clock - staleAfter)
  }

  ghost predicate SweepsInOrder(w: World, gap: nat) {
    forall me :: me in w.trackers ==>
      var t := w.trackers[me];
      && (t.sweep.Some? ==> t.committedAt <= t.sweep.value.at)
      && (t.accepting ==> t.committedAt - t.renewedAt <= gap)
  }

  lemma {:induction false} PunctualRunsAreInOrder(w: World, run: seq<Event>, gap: nat)
    requires Inv(w) && SweepsInOrder(w, gap) && PunctualRun(w, run, gap)
    ensures Valid(w, run)
    ensures Inv(After(w, run)) && SweepsInOrder(After(w, run), gap) && Punctual(After(w, run), gap)
    ensures After(w, run).latency == w.latency
    decreases |run|
  {
    if run != [] {
      StepKeepsInv(w, run[0]);
      StepKeepsOrder(w, run[0], gap);
      PunctualRunsAreInOrder(Step(w, run[0]), run[1..], gap);
    }
  }

  lemma StepKeepsOrder(w: World, e: Event, gap: nat)
    requires Inv(w) && SweepsInOrder(w, gap) && Punctual(w, gap) && Enabled(w, e)
    ensures SweepsInOrder(Step(w, e), gap)
    ensures Step(w, e).latency == w.latency
  {
    forall me | me in w.trackers ensures w.trackers[me].committedAt <= w.clock { assert TrackerInv(w, me); }
  }

  /** The guarantee at one state: ids chosen recently enough, nothing is stale. */
  lemma RecentSweepsProtect(w: World, staleAfter: int)
    requires Inv(w)
    requires forall me :: me in w.trackers && Steady(w.trackers[me]) ==>
               w.clock - w.trackers[me].renewedAt + w.latency < staleAfter
    ensures LiveWorkSafe(w, staleAfter)
  {
    forall me, o | me in w.trackers && Steady(w.trackers[me]) && o in w.registry && Live(w.trackers[me], me, o)
      ensures !o.StaleAt(w.clock - staleAfter)
    {
      assert TrackerInv(w, me) && RecordInv(w, w.trackers[me], me, o);
    }
  }

  /** Punctual runs never endanger live work: the claim a heartbeat gap makes. */
  ghost predicate GapProtects(gap: nat, latency: nat, staleAfter: int) {
    forall w, run | Initial(w) && w.latency == latency && PunctualRun(w, run, gap) && Valid(w, run) ::
      LiveWorkSafe(After(w, run), staleAfter)
  }

  lemma ShortGapProtects(gap: nat, latency: nat, staleAfter: int)
    requires 2 * gap + latency < staleAfter
    ensures GapProtects(gap, latency, staleAfter)
  {
    forall w, run | Initial(w) && w.latency == latency && PunctualRun(w, run, gap) && Valid(w, run)
      ensures LiveWorkSafe(After(w, run), staleAfter)
    {
      InitialInv(w);
      PunctualRunsAreInOrder(w, run, gap);
      RecentSweepsProtect(After(w, run), staleAfter);
    }
  }

  const A: Owner := "a"
  const X: Id := "x"
  const Y: Id := "y"

  ghost function OneTracker(clock: int, latency: nat): World {
    World([], clock, latency, {}, map[], map[A := Tracker(true, 1, {}, None, None, {}, 0, {}, false, clock, clock)])
  }

  /** A start of X reads the clock and waits for the lock while the tracker is shut
      down */
  function CloseUnderStart(): seq<Event> { [StartBegin(A, X), Shutdown(A), Forget(A)] }

  /** and reopened. */
  function ReopenLater(latency: nat): seq<Event> { [Tick(latency), Reopen(A)] }

  /** Y is started; */
  function StartY(): seq<Event> { [StartBegin(A, Y), StartWrite(A, Y, None), StartTrack(A)] }

  /** a sweep chooses its ids just before X is written, and so passes over X; */
  function SweepThenWrite(): seq<Event> { [SweepBegin(A), StartWrite(A, X, None)] }

  /** the next sweep is on time, */
  function TrackAndWait(gap: nat, latency: nat): seq<Event> { [StartTrack(A), Tick(latency + gap)] }

  /** but by then X is `2 * gap + latency` old. */
  function CommitWithoutIt(gap: nat, latency: nat): seq<Event> { [SweepCommit(A)] + [Tick(latency + 2 * gap)] }

  function Started(id: Id, stamp: int): Operation { NewOperation(id, A, None, stamp) }

  /** X is being started. */
  ghost function Starting(clock: int, latency: nat, t: Tracker): World {
    World([], clock, latency, {X}, map[X := Begun(A, 0)], map[A := t])
  }

  ghost function Waiting(latency: nat): World {
    Starting(latency, latency, Tracker(true, 1, {}, None, None, {}, 0, {}, false, latency, latency))
  }

  ghost function Written(latency: nat): World {
    World([Started(Y, latency), Started(X, 0)], latency, latency, {X, Y}, map[],
          map[A := Tracker(true, 1, {Y}, Some(X), Some(Sweep({Y}, latency)), {}, 0, {Y, X}, false, latency, latency)])
  }

  lemma AllActiveStay(r: Registry)
    requires forall o :: o in r ==> o.Active()
    ensures Prune(r, 1) == r
  {
    PruneActive(r, 1);
  }

  /** The run is possible, punctual and ends in `end`. */
  ghost predicate Leads(w: World, run: seq<Event>, end: World, gap: nat) {
    PunctualRun(w, run, gap) && Valid(w, run) && After(w, run) == end
  }

  /** So is the single event. */
  ghost predicate Goes(w: World, e: Event, next: World, gap: nat) {
    Punctual(w, gap) && Enabled(w, e) && Step(w, e) == next
  }

  /** Steps one after the other make a run. */
  lemma {:induction false} Trace(worlds: seq<World>, run: seq<Event>, gap: nat)
    requires |worlds| == |run| + 1 && Punctual(worlds[|run|], gap)
    requires forall k :: 0 <= k < |run| ==> Goes(worlds[k], run[k], worlds[k + 1], gap)
    ensures Leads(worlds[0], run, worlds[|run|], gap)
    decreases |run|
  {
    if run != [] {
      assert Goes(worlds[0], run[0], worlds[0 + 1], gap);
      Trace(worlds[1..], run[1..], gap);
    }
  }

  lemma {:induction false} Chain(w: World, first: seq<Event>, between: World, second: seq<Event>, end: World, gap: nat)
    requires Leads(w, first, between, gap) && Leads(between, second, end, gap)
    ensures Leads(w, first + second, end, gap)
    decreases |first|
  {
    if first == [] {
      assert first + second == second;
    } else {
      Chain(Step(w, first[0]), first[1..], between, second, end, gap);
      assert (first + second)[0] == first[0] && (first + second)[1..] == first[1..] + second;
    }
  }

  function FirstTracker(): Tracker { Tracker(true, 1, {}, None, None, {}, 0, {}, false, 0, 0) }

  lemma ClosingPart(gap: nat, latency: nat)
    ensures Leads(OneTracker(0, latency), CloseUnderStart(), Starting(0, latency, FirstTracker().(accepting := false)), gap)
  {
    var run, t := CloseUnderStart(), FirstTracker();
    var closing, closed := t.(accepting := false, closing := 1), t.(accepting := false);
    Trace([OneTracker(0, latency), Starting(0, latency, t), Starting(0, latency, closing), Starting(0, latency, closed)], run, gap);
  }

  lemma ReopeningPart(gap: nat, latency: nat)
    ensures Leads(Starting(0, latency, FirstTracker().(accepting := false)), ReopenLater(latency), Waiting(latency), gap)
  {
    var run, closed := ReopenLater(latency), FirstTracker().(accepting := false);
    var reopened := FirstTracker().(renewedAt := latency, committedAt := latency);
    Trace([Starting(0, latency, closed), Starting(latency, latency, closed), Starting(latency, latency, reopened)], run, gap);
  }

  /** X waits for the lock of a tracker that has just opened. */
  function WaitForLock(latency: nat): seq<Event> { CloseUnderStart() + ReopenLater(latency) }

  lemma WaitingPart(gap: nat, latency: nat)
    ensures Leads(OneTracker(0, latency), WaitForLock(latency), Waiting(latency), gap)
  {
    ClosingPart(gap, latency);
    ReopeningPart(gap, latency);
    Chain(OneTracker(0, latency), CloseUnderStart(), Starting(0, latency, FirstTracker().(accepting := false)),
          ReopenLater(latency), Waiting(latency), gap);
  }

  ghost function YStarting(latency: nat): World {
    Waiting(latency).(used := {X, Y}, begun := map[X := Begun(A, 0), Y := Begun(A, latency)])
  }

  ghost function YWritten(latency: nat): World {
    World([Started(Y, latency)], latency, latency, {X, Y}, map[X := Begun(A, 0)],
          map[A := Tracker(true, 1, {}, Some(Y), None, {}, 0, {Y}, false, latency, latency)])
  }

  ghost function YTracked(latency: nat): World {
    World([Started(Y, latency)], latency, latency, {X, Y}, map[X := Begun(A, 0)],
          map[A := Tracker(true, 1, {Y}, None, None, {}, 0, {Y}, false, latency, latency)])
  }

  ghost function YSwept(latency: nat): World {
    World([Started(Y, latency)], latency, latency, {X, Y}, map[X := Begun(A, 0)],
          map[A := Tracker(true, 1, {Y}, None, Some(Sweep({Y}, latency)), {}, 0, {Y}, false, latency, latency)])
  }

  lemma WriteY(latency: nat)
    ensures Enabled(YStarting(latency), StartWrite(A, Y, None))
    ensures Step(YStarting(latency), StartWrite(A, Y, None)) == YWritten(latency)
  {
    AllActiveStay([Started(Y, latency)]);
    assert YStarting(latency).begun - {Y} == map[X := Begun(A, 0)];
    assert {} + {Y} == {Y};
  }

  lemma WriteX(latency: nat)
    ensures Enabled(YSwept(latency), StartWrite(A, X, None))
    ensures Step(YSwept(latency), StartWrite(A, X, None)) == Written(latency)
  {
    var y, x := Started(Y, latency), Started(X, 0);
    assert [y][1..] == [];
    assert Put([y], x) == [y, x];
    AllActiveStay([y, x]);
    assert {Y} + {X} == {Y, X};
    assert YSwept(latency).begun - {X} == map[];
    assert WriteStart(x, 1, [y]) == [y, x];
  }

  lemma StartingPart(gap: nat, latency: nat)
    ensures Leads(Waiting(latency), StartY(), YTracked(latency), gap)
  {
    var run := StartY();
    WriteY(latency);
    assert {} + {Y} == {Y};
    assert Goes(YWritten(latency), run[2], YTracked(latency), gap);
    assert Goes(Waiting(latency), run[0], YStarting(latency), gap);
    Trace([Waiting(latency), YStarting(latency), YWritten(latency), YTracked(latency)], run, gap);
  }

  lemma SweepingPart(gap: nat, latency: nat)
    ensures Leads(YTracked(latency), SweepThenWrite(), Written(latency), gap)
  {
    WriteX(latency);
    Trace([YTracked(latency), YSwept(latency), Written(latency)], SweepThenWrite(), gap);
  }

  function WriteBehind(): seq<Event> { StartY() + SweepThenWrite() }

  lemma WritingPart(gap: nat, latency: nat)
    ensures Leads(Waiting(latency), WriteBehind(), Written(latency), gap)
  {
    StartingPart(gap, latency);
    SweepingPart(gap, latency);
    Chain(Waiting(latency), StartY(), YTracked(latency), SweepThenWrite(), Written(latency), gap);
  }

  /** X is tracked while the sweep is still under way, */
  ghost function Overtaken(clock: int, latency: nat): World {
    World([Started(Y, latency), Started(X, 0)], clock, latency, {X, Y}, map[],
          map[A := Tracker(true, 1, {Y, X}, None, Some(Sweep({Y}, latency)), {}, 0, {Y, X}, false, latency, latency)])
  }

  /** and left alone when it commits, at `committed`. */
  ghost function Late(clock: int, committed: int, latency: nat): World {
    World([Started(Y, latency).(heartbeat := At(committed)), Started(X, 0)], clock, latency, {X, Y}, map[],
          map[A := Tracker(true, 1, {Y, X}, None, None, {}, 0, {Y, X}, false, latency, committed)])
  }

  lemma CommitY(clock: int, latency: nat)
    ensures Enabled(Overtaken(clock, latency), SweepCommit(A))
    ensures Step(Overtaken(clock, latency), SweepCommit(A)) == Late(clock, clock, latency)
  {
    var w, call := Overtaken(clock, latency), RenewAll({Y});
    var renewed := ApplyAll(call, A, clock, w.registry);
    assert renewed == Late(clock, clock, latency).registry;
    AllActiveStay(renewed);
    assert Selects(call, A, Started(Y, latency));
    assert SelectedIds(call, A, w.registry) == {Y};
    assert {} + ({Y} - {Y}) == {};
  }

  lemma TrackingPart(gap: nat, latency: nat)
    ensures Leads(Written(latency), TrackAndWait(gap, latency), Overtaken(latency + gap, latency), gap)
  {
    var run, w1 := TrackAndWait(gap, latency), Overtaken(latency, latency);
    assert {Y} + {X} == {Y, X};
    assert Goes(Written(latency), run[0], w1, gap);
    Trace([Written(latency), w1, Overtaken(latency + gap, latency)], run, gap);
  }

  lemma CommitThen(clock: int, latency: nat, rest: seq<Event>, end: World, gap: nat)
    requires latency <= clock <= latency + gap && Leads(Late(clock, clock, latency), rest, end, gap)
    ensures Leads(Overtaken(clock, latency), [SweepCommit(A)] + rest, end, gap)
  {
    CommitY(clock, latency);
    var run := [SweepCommit(A)] + rest;
    assert run[0] == SweepCommit(A) && run[1..] == rest;
  }

  lemma TickingPart(gap: nat, latency: nat)
    ensures Leads(Late(latency + gap, latency + gap, latency), [Tick(latency + 2 * gap)],
                  Late(latency + 2 * gap, latency + gap, latency), gap)
  {
    Trace([Late(latency + gap, latency + gap, latency), Late(latency + 2 * gap, latency + gap, latency)], [Tick(latency + 2 * gap)], gap);
  }

  lemma CommittingPart(gap: nat, latency: nat)
    ensures Leads(Overtaken(latency + gap, latency), CommitWithoutIt(gap, latency), Late(latency + 2 * gap, latency + gap, latency), gap)
  {
    TickingPart(gap, latency);
    CommitThen(latency + gap, latency, [Tick(latency + 2 * gap)], Late(latency + 2 * gap, latency + gap, latency), gap);
  }

  lemma LateRun(gap: nat, latency: nat)
    ensures Leads(OneTracker(0, latency),
                  WaitForLock(latency) + WriteBehind() + (TrackAndWait(gap, latency) + CommitWithoutIt(gap, latency)),
                  Late(latency + 2 * gap, latency + gap, latency), gap)
  {
    var last := Late(latency + 2 * gap, latency + gap, latency);
    WaitingPart(gap, latency);
    WritingPart(gap, latency);
    Chain(OneTracker(0, latency), WaitForLock(latency), Waiting(latency), WriteBehind(), Written(latency), gap);
    SecondHalf(gap, latency);
    Chain(OneTracker(0, latency), WaitForLock(latency) + WriteBehind(), Written(latency),
          TrackAndWait(gap, latency) + CommitWithoutIt(gap, latency), last, gap);
  }

  lemma SecondHalf(gap: nat, latency: nat)
    ensures Leads(Written(latency), TrackAndWait(gap, latency) + CommitWithoutIt(gap, latency),
                  Late(latency + 2 * gap, latency + gap, latency), gap)
  {
    TrackingPart(gap, latency);
    CommittingPart(gap, latency);
    Chain(Written(latency), TrackAndWait(gap, latency), Overtaken(latency + gap, latency), CommitWithoutIt(gap, latency),
          Late(latency + 2 * gap, latency + gap, latency), gap);
  }

  lemma LateForAll(gap: nat, latency: nat, staleAfter: int)
    requires 2 * gap + latency >= staleAfter
    ensures !GapProtects(gap, latency, staleAfter)
  {
    var last := Late(latency + 2 * gap, latency + gap, latency);
    LateRun(gap, latency);
    XIsLate(last, staleAfter);
  }

  lemma XIsLate(w: World, staleAfter: int)
    requires Started(X, 0) in w.registry && A in w.trackers && Steady(w.trackers[A]) && X in w.trackers[A].lifespan
    requires w.clock >= staleAfter
    ensures !LiveWorkSafe(w, staleAfter)
  {
    var o := Started(X, 0);
    assert Live(w.trackers[A], A, o) && o.StaleAt(w.clock - staleAfter);
  }

  /** A heartbeat gap protects live work exactly when twice the gap, plus the time
      a start may wait between reading the clock and writing its record, is below
      the stale threshold. A gap merely below the threshold is not enough. */
  lemma ExactHeartbeatGap(gap: nat, latency: nat, staleAfter: int)
    ensures GapProtects(gap, latency, staleAfter) <==> 2 * gap + latency < staleAfter
  {
    if 2 * gap + latency < staleAfter {
      ShortGapProtects(gap, latency, staleAfter);
    } else {
      LateForAll(gap, latency, staleAfter);
    }
  }

  // ---------- a tracker reopened too early ----------

  /** The tracker is reopened before its shutdown has returned, */
  function ReopenEarly(): seq<Event> { [Shutdown(A), Reopen(A), StartBegin(A, X)] }

  /** and the clear of the shutdown lands after X was started. */
  function ClearLate(): seq<Event> { [StartWrite(A, X, None), StartTrack(A), Forget(A)] }

  ghost function Dropped(clock: nat, latency: nat): World {
    World([Started(X, 0)], clock, latency, {X}, map[],
          map[A := Tracker(true, 1, {}, None, None, {}, 0, {X}, true, clock, clock)])
  }

  /** Sweeps one instant apart, with nothing to renew. */
  function Rounds(from: nat, n: nat): seq<Event>
    decreases n
  {
    if n == 0 then [] else [Tick(from + 1), SweepBegin(A)] + Rounds(from + 1, n - 1)
  }

  lemma {:induction false} RoundsRenewNothing(from: nat, n: nat, latency: nat, gap: nat)
    requires gap >= 1
    ensures Leads(Dropped(from, latency), Rounds(from, n), Dropped(from + n, latency), gap)
    decreases n
  {
    if n > 0 {
      var end := Dropped(from + n, latency);
      RoundsRenewNothing(from + 1, n - 1, latency, gap);
      OneRound(from, latency, gap);
      Chain(Dropped(from, latency), [Tick(from + 1), SweepBegin(A)], Dropped(from + 1, latency), Rounds(from + 1, n - 1), end, gap);
    }
  }

  lemma OneRound(from: nat, latency: nat, gap: nat)
    requires gap >= 1
    ensures Leads(Dropped(from, latency), [Tick(from + 1), SweepBegin(A)], Dropped(from + 1, latency), gap)
  {
    var w, end := Dropped(from, latency), Dropped(from + 1, latency);
    var ticked := Step(w, Tick(from + 1));
    assert Goes(ticked, SweepBegin(A), end, gap);
    Trace([w, ticked, end], [Tick(from + 1), SweepBegin(A)], gap);
  }

  ghost function XStarting(latency: nat): World {
    Starting(0, latency, Tracker(true, 1, {}, None, None, {}, 1, {}, true, 0, 0))
  }

  ghost function XWritten(latency: nat): World {
    World([Started(X, 0)], 0, latency, {X}, map[], map[A := Tracker(true, 1, {}, Some(X), None, {}, 1, {X}, true, 0, 0)])
  }

  lemma WriteXAlone(latency: nat)
    ensures Enabled(XStarting(latency), StartWrite(A, X, None))
    ensures Step(XStarting(latency), StartWrite(A, X, None)) == XWritten(latency)
  {
    AllActiveStay([Started(X, 0)]);
    assert XStarting(latency).begun - {X} == map[];
    assert {} + {X} == {X};
  }

  lemma ReopenPart(gap: nat, latency: nat)
    ensures Leads(OneTracker(0, latency), ReopenEarly(), XStarting(latency), gap)
  {
    var run := ReopenEarly();
    var w0 := OneTracker(0, latency);
    var w1 := Step(w0, run[0]);
    var w2 := Step(w1, run[1]);
    assert Goes(w2, run[2], XStarting(latency), gap);
    Trace([w0, w1, w2, XStarting(latency)], run, gap);
  }

  lemma ClearPart(gap: nat, latency: nat)
    ensures Leads(XStarting(latency), ClearLate(), Dropped(0, latency), gap)
  {
    var run := ClearLate();
    WriteXAlone(latency);
    var w2 := Step(XWritten(latency), run[1]);
    assert Goes(w2, run[2], Dropped(0, latency), gap);
    Trace([XStarting(latency), XWritten(latency), w2, Dropped(0, latency)], run, gap);
  }

  /** A punctual run in which work of an accepting tracker becomes stale. */
  ghost predicate GoesStale(w: World, run: seq<Event>, gap: nat, latency: nat, staleAfter: nat) {
    && Initial(w) && w.latency == latency && PunctualRun(w, run, gap) && Valid(w, run)
    && StaleLive(After(w, run), staleAfter)
  }

  ghost predicate StaleLive(w: World, staleAfter: nat) {
    && A in w.trackers && w.trackers[A].accepting
    && exists o :: o in w.registry && Live(w.trackers[A], A, o) && o.StaleAt(w.clock - staleAfter)
  }

  lemma DroppedIsStale(latency: nat, staleAfter: nat)
    ensures StaleLive(Dropped(staleAfter, latency), staleAfter)
  {
    var w, o := Dropped(staleAfter, latency), Started(X, 0);
    assert o in w.registry && Live(w.trackers[A], A, o) && o.StaleAt(w.clock - staleAfter);
  }

  lemma OverlapRun(gap: nat, latency: nat, n: nat)
    requires gap >= 1
    ensures Leads(OneTracker(0, latency), ReopenEarly() + ClearLate() + Rounds(0, n), Dropped(n, latency), gap)
  {
    ReopenPart(gap, latency);
    ClearPart(gap, latency);
    Chain(OneTracker(0, latency), ReopenEarly(), XStarting(latency), ClearLate(), Dropped(0, latency), gap);
    RoundsRenewNothing(0, n, latency, gap);
    Chain(OneTracker(0, latency), ReopenEarly() + ClearLate(), Dropped(0, latency), Rounds(0, n), Dropped(n, latency), gap);
  }

  lemma LeadsToStale(w: World, run: seq<Event>, end: World, gap: nat, staleAfter: nat)
    requires Initial(w) && Leads(w, run, end, gap) && StaleLive(end, staleAfter)
    ensures GoesStale(w, run, gap, w.latency, staleAfter)
  { }

  /** There no gap protects: with sweeps as frequent as one likes, work of an accepting
      tracker reopened before its shutdown had returned becomes stale. */
  lemma NoGapProtectsAfterOverlap(gap: nat, latency: nat, staleAfter: nat)
    requires gap >= 1
    ensures exists w, run :: GoesStale(w, run, gap, latency, staleAfter)
  {
    OverlapRun(gap, latency, staleAfter);
    DroppedIsStale(latency, staleAfter);
    LeadsToStale(OneTracker(0, latency), ReopenEarly() + ClearLate() + Rounds(0, staleAfter), Dropped(staleAfter, latency), gap, staleAfter);
  }
}
