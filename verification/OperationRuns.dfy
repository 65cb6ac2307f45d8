/** Whole runs of the registry protocol: which work is tracked, when reopening a
    tracker is safe, fencing, and permanence of closed records. */
module OperationRuns {

  import opened Common
  import opened OperationRegistry
  import opened OperationProtocol

  ghost predicate Valid(w: World, run: seq<Event>)
    decreases |run|
  {
    run == [] || (Enabled(w, run[0]) && Valid(Step(w, run[0]), run[1..]))
  }

  ghost function After(w: World, run: seq<Event>): World
    requires Valid(w, run)
    decreases |run|
  {
    if run == [] then w else After(Step(w, run[0]), run[1..])
  }

  /** The store may hold anything earlier processes left; trackers are new. */
  ghost predicate Initial(w: World) {
    && UniqueIds(w.registry) && IdsOf(w.registry) <= w.used && w.begun == map[]
    && forall me :: me in w.trackers ==>
         w.trackers[me] == Tracker(true, w.trackers[me].maxRecent, {}, None, None, {}, 0, {}, false, w.clock, w.clock)
  }

  lemma {:induction false} InvAlways(w: World, run: seq<Event>)
    requires Inv(w) && Valid(w, run)
    ensures Inv(After(w, run))
    decreases |run|
  {
    if run != [] {
      StepKeepsInv(w, run[0]);
      InvAlways(Step(w, run[0]), run[1..]);
    }
  }

  lemma InitialInv(w: World)
    requires Initial(w)
    ensures Inv(w)
  { }

  /** Every active record the tracker started since it last opened is in its
      heartbeat set, or its start() is still inside the lock that will add it. */
  ghost predicate TracksLive(w: World, me: Owner)
    requires me in w.trackers
  {
    var t := w.trackers[me];
    t.accepting ==> forall o :: o in w.registry && Live(t, me, o) ==> o.id in t.tracked || t.holding == Some(o.id)
  }

  /** That holds over every run for a tracker whose shutdowns had all returned when
      it last opened. */
  lemma LiveWorkIsTracked(w: World, run: seq<Event>, me: Owner)
    requires Initial(w) && Valid(w, run)
    requires me in After(w, run).trackers && !After(w, run).trackers[me].overlapped
    ensures TracksLive(After(w, run), me)
  {
    InitialInv(w);
    InvAlways(w, run);
    SteadyTracks(After(w, run), me);
  }

  lemma SteadyTracks(w: World, me: Owner)
    requires Inv(w) && me in w.trackers && !w.trackers[me].overlapped
    ensures TracksLive(w, me)
  {
    assert TrackerInv(w, me);
    forall o | o in w.registry && w.trackers[me].accepting && Live(w.trackers[me], me, o)
      ensures o.id in w.trackers[me].tracked || w.trackers[me].holding == Some(o.id)
    {
      assert RecordInv(w, w.trackers[me], me, o);
    }
  }

  // ---------- when reopening is safe ----------

  /** The tracker is not reopened during the run. */
  predicate OneLifespan(run: seq<Event>, me: Owner) { forall i :: 0 <= i < |run| ==> run[i] != Reopen(me) }

  /** Whatever happens until the next reopening, live work is tracked. */
  ghost predicate TracksFromHere(w: World, me: Owner) {
    forall run | Valid(w, run) && OneLifespan(run, me) ::
      me in After(w, run).trackers ==> TracksLive(After(w, run), me)
  }

  lemma {:induction false} OverlapStays(w: World, run: seq<Event>, me: Owner)
    requires Valid(w, run) && me in w.trackers && OneLifespan(run, me)
    ensures me in After(w, run).trackers && After(w, run).trackers[me].overlapped == w.trackers[me].overlapped
    decreases |run|
  {
    if run != [] {
      assert run[0] != Reopen(me);
      assert forall i :: 0 <= i < |run[1..]| ==> run[1..][i] == run[i + 1];
      OverlapStays(Step(w, run[0]), run[1..], me);
    }
  }

  /** Reopening a tracker is safe exactly when every shutdown() that closed it has
      returned: the clear of one that has not would drop the ids of new work. */
  lemma ReopenIsSafeExactly(w: World, me: Owner)
    requires Inv(w) && Enabled(w, Reopen(me))
    ensures TracksFromHere(Step(w, Reopen(me)), me) <==> w.trackers[me].closing == 0
  {
    var w' := Step(w, Reopen(me));
    StepKeepsInv(w, Reopen(me));
    if w.trackers[me].closing == 0 {
      forall run | Valid(w', run) && OneLifespan(run, me) && me in After(w', run).trackers
        ensures TracksLive(After(w', run), me)
      {
        InvAlways(w', run);
        OverlapStays(w', run, me);
        SteadyTracks(After(w', run), me);
      }
    } else {
      var id := FreshId(w.used);
      LateClear(w', me, id);
    }
  }

  /** A start between a reopening and the late clear of an earlier shutdown. */
  function StartThenClear(me: Owner, id: Id): seq<Event> {
    [StartBegin(me, id), StartWrite(me, id, None), StartTrack(me), Forget(me)]
  }

  lemma LateClear(w: World, me: Owner, id: Id)
    requires Inv(w) && id !in w.used && me in w.trackers
    requires w.trackers[me].accepting && w.trackers[me].holding.None? && w.trackers[me].closing > 0
    ensures !TracksFromHere(w, me)
  {
    DroppedAtTheEnd(w, me, id);
    assert OneLifespan(StartThenClear(me, id), me);
  }

  lemma DroppedAtTheEnd(w: World, me: Owner, id: Id)
    requires Inv(w) && id !in w.used && me in w.trackers
    requires w.trackers[me].accepting && w.trackers[me].holding.None? && w.trackers[me].closing > 0
    ensures var run := StartThenClear(me, id);
            Valid(w, run) && me in After(w, run).trackers && !TracksLive(After(w, run), me)
  {
    var run := StartThenClear(me, id);
    var w1 := Step(w, run[0]);
    var w2 := WrittenUntracked(w1, me, id);
    assert run[2..] == [StartTrack(me), Forget(me)];
    ClearedUntracked(w2, me, NewOperation(id, me, None, w.clock));
  }

  lemma WrittenUntracked(w: World, me: Owner, id: Id) returns (w': World)
    requires UniqueIds(w.registry) && id !in IdsOf(w.registry) && Enabled(w, StartWrite(me, id, None))
    ensures w' == Step(w, StartWrite(me, id, None))
    ensures NewOperation(id, me, None, w.begun[id].stamp) in w'.registry
    ensures me in w'.trackers && w'.trackers[me].holding == Some(id) && id in w'.trackers[me].lifespan
    ensures w'.trackers[me].accepting && w'.trackers[me].closing == w.trackers[me].closing
  {
    w' := Step(w, StartWrite(me, id, None));
    StartWriteSpec(w.registry, NewOperation(id, me, None, w.begun[id].stamp), w.trackers[me].maxRecent);
  }

  lemma ClearedUntracked(w: World, me: Owner, o: Operation)
    requires me in w.trackers && o in w.registry && w.trackers[me].holding == Some(o.id) && Live(w.trackers[me], me, o)
    requires w.trackers[me].accepting && w.trackers[me].closing > 0
    ensures var run := [StartTrack(me), Forget(me)];
            Valid(w, run) && me in After(w, run).trackers && !TracksLive(After(w, run), me)
  {
    var w1 := Step(w, StartTrack(me));
    var w2 := Step(w1, Forget(me));
    assert After(w2, []) == w2;
    assert [Forget(me)][1..] == [];
    assert [StartTrack(me), Forget(me)][1..] == [Forget(me)];
    assert o in w2.registry && Live(w2.trackers[me], me, o);
  }

  function Names(n: nat): set<Id> {
    if n == 0 then {} else Names(n - 1) + {seq(n - 1, _ => 'x')}
  }

  lemma {:induction false} NamesDiffer(n: nat)
    ensures |Names(n)| == n && forall id :: id in Names(n) ==> |id| < n
  {
    if n > 0 {
      NamesDiffer(n - 1);
    }
  }

  /** There is always an id not used yet. */
  lemma FreshId(used: set<Id>) returns (id: Id)
    ensures id !in used
  {
    var names := Names(|used| + 1);
    NamesDiffer(|used| + 1);
    if names <= used {
      SubsetSize(names, used);
      assert false;
    }
    id :| id in names && id !in used;
  }

  /** The tracker neither has the id in its heartbeat set nor is about to put it there. */
  ghost predicate Forgotten(w: World, me: Owner, id: Id) {
    && me in w.trackers && id in Known(w)
    && var t := w.trackers[me];
       id !in t.tracked && t.holding != Some(id) && (t.sweep.Some? ==> id !in t.sweep.value.ids)
  }

  lemma StepKeepsForgotten(w: World, e: Event, me: Owner, id: Id)
    requires Enabled(w, e) && Forgotten(w, me, id)
    ensures Forgotten(Step(w, e), me, id)
  {
    match e
    case StartWrite(_, other, _) => assert other != id;
    case _ =>
  }

  lemma {:induction false} ForgottenForever(w: World, run: seq<Event>, me: Owner, id: Id)
    requires Valid(w, run) && Forgotten(w, me, id)
    ensures Forgotten(After(w, run), me, id)
    decreases |run|
  {
    if run != [] {
      StepKeepsForgotten(w, run[0], me, id);
      ForgottenForever(Step(w, run[0]), run[1..], me, id);
    }
  }

  /** Reopening also forgets work that the shutdown left active, because it was told to
      or because the write failed: the record stays as it is in the registry, and no
      sweep of the tracker ever renews it again, in whatever run. */
  lemma ReopenForgetsEarlierWork(w: World, run: seq<Event>, me: Owner, o: Operation)
    requires Inv(w) && Enabled(w, Reopen(me)) && o in w.registry && o.owner == me && o.Active()
    requires Valid(Step(w, Reopen(me)), run)
    ensures o in Step(w, Reopen(me)).registry
    ensures Forgotten(After(Step(w, Reopen(me)), run), me, o.id)
  {
    assert o.id in IdsOf(w.registry);
    ForgottenForever(Step(w, Reopen(me)), run, me, o.id);
  }

  // ---------- fencing ----------

  function Actor(e: Event): Option<Owner> {
    match e
    case Tick(_) => None
    case _ => Some(e.me)
  }

  /** The mutator an event applies to the stored records, if any. */
  function Applied(w: World, e: Event): Option<Call>
    requires Enabled(w, e)
  {
    match e
    case Act(_, call) => Some(call)
    case StartAbort(me, saved) => if saved then Some(FailStart(w.trackers[me].holding.value)) else None
    case SweepCommit(me) => Some(RenewAll(w.trackers[me].sweep.value.ids))
    case _ => None
  }

  ghost predicate Fenced(w: World, e: Event, w': World)
    requires Enabled(w, e)
  {
    && (forall o' :: o' in w'.registry ==>
          || (e.StartWrite? && o'.id == e.id && o'.owner == e.me)
          || (exists o :: o in w.registry && (o' == o || (Actor(e).Some? && AllowedChange(Actor(e).value, o, o')))))
    && (forall o :: o in w.registry && o.Active() ==>
          || o in w'.registry
          || (Applied(w, e).Some? && Selects(Applied(w, e).value, e.me, o)))
  }

  /** One event of one tracker adds only its own new record, changes foreign
      records only from active to interrupted, and an active record disappears or
      changes only if the event's call addressed it. */
  lemma StepIsFenced(w: World, e: Event)
    requires Inv(w) && Enabled(w, e)
    ensures Fenced(w, e, Step(w, e))
  {
    match e
    case StartWrite(me, id, total) =>
      StartWriteSpec(w.registry, NewOperation(id, me, total, w.begun[id].stamp), w.trackers[me].maxRecent);
    case Clear(me) => PruneSpec(ActiveOf(w.registry), w.trackers[me].maxRecent);
    case Act(me, call) => CallIsFenced(w, e, call);
    case StartAbort(me, saved) =>
      if saved {
        CallIsFenced(w, e, FailStart(w.trackers[me].holding.value));
      }
    case SweepCommit(me) => CallIsFenced(w, e, RenewAll(w.trackers[me].sweep.value.ids));
    case _ =>
  }

  lemma CallIsFenced(w: World, e: Event, call: Call)
    requires Inv(w) && Enabled(w, e)
    requires e.Act? || e.StartAbort? || e.SweepCommit?
    requires Applied(w, e) == Some(call)
    ensures Fenced(w, e, Step(w, e))
  {
    WriteIsSafe(call, e.me, w.clock, w.trackers[e.me].maxRecent, w.registry);
  }

  // ---------- permanence ----------

  /** The id has been issued and no active record carries it. */
  ghost predicate Closed(w: World, id: Id) {
    id in Known(w) && forall o :: o in w.registry && o.id == id ==> !o.Active()
  }

  lemma StepKeepsClosed(w: World, e: Event, id: Id)
    requires Inv(w) && Enabled(w, e) && Closed(w, id)
    ensures Closed(Step(w, e), id)
  {
    var w' := Step(w, e);
    StepIsFenced(w, e);
    forall o' | o' in w'.registry && o'.id == id ensures !o'.Active() {
      if !(e.StartWrite? && o'.id == e.id) {
        var o :| o in w.registry && (o' == o || (Actor(e).Some? && AllowedChange(Actor(e).value, o, o')));
        assert !o.Active();
      }
    }
  }

  /** A record that left {queued, running} never becomes active again, whatever
      any number of trackers do afterwards. */
  lemma {:induction false} ClosedForever(w: World, run: seq<Event>, id: Id)
    requires Inv(w) && Valid(w, run) && Closed(w, id)
    ensures Closed(After(w, run), id)
    decreases |run|
  {
    if run != [] {
      StepKeepsInv(w, run[0]);
      StepKeepsClosed(w, run[0], id);
      ClosedForever(Step(w, run[0]), run[1..], id);
    }
  }

  // ---------- work nobody renews ----------

  /** The event may give the record with this id a new beat. */
  predicate Renews(w: World, e: Event, id: Id) {
    match e
    case Act(_, call) => (call.Update? || call.Renew?) && call.id == id
    case SweepCommit(me) => me in w.trackers && w.trackers[me].sweep.Some? && id in w.trackers[me].sweep.value.ids
    case _ => false
  }

  predicate NeverRenewed(w: World, run: seq<Event>, id: Id)
    requires Valid(w, run)
    decreases |run|
  {
    run == [] || (!Renews(w, run[0], id) && NeverRenewed(Step(w, run[0]), run[1..], id))
  }

  /** Every active record with this id still shows this beat. */
  predicate BeatIs(w: World, id: Id, beat: Option<int>) {
    forall o :: o in w.registry && o.id == id && o.Active() ==> o.Beat() == beat
  }

  lemma StepKeepsBeat(w: World, e: Event, id: Id, beat: Option<int>)
    requires Inv(w) && Enabled(w, e) && id in Known(w) && BeatIs(w, id, beat) && !Renews(w, e, id)
    ensures id in Known(Step(w, e)) && BeatIs(Step(w, e), id, beat)
  {
    match e
    case StartWrite(me, other, total) =>
      StartWriteSpec(w.registry, NewOperation(other, me, total, w.begun[other].stamp), w.trackers[me].maxRecent);
    case Clear(me) => PruneSpec(ActiveOf(w.registry), w.trackers[me].maxRecent);
    case Act(me, call) => CallKeepsBeat(w, me, call, id, beat);
    case StartAbort(me, saved) =>
      if saved {
        CallKeepsBeat(w, me, FailStart(w.trackers[me].holding.value), id, beat);
      }
    case SweepCommit(me) => CallKeepsBeat(w, me, RenewAll(w.trackers[me].sweep.value.ids), id, beat);
    case _ =>
  }

  lemma CallKeepsBeat(w: World, me: Owner, call: Call, id: Id, beat: Option<int>)
    requires Inv(w) && me in w.trackers && BeatIs(w, id, beat)
    requires !((call.Update? || call.Renew?) && call.id == id) && !(call.RenewAll? && id in call.ids)
    requires call.Complete? ==> !call.status.Queued? && !call.status.Running?
    ensures BeatIs(w.(registry := Write(call, me, w.clock, w.trackers[me].maxRecent, w.registry)), id, beat)
  {
    var r := Write(call, me, w.clock, w.trackers[me].maxRecent, w.registry);
    WriteCarries(call, me, w.clock, w.trackers[me].maxRecent, w.registry);
    forall o' | o' in r && o'.id == id && o'.Active() ensures o'.Beat() == beat {
      var o :| o in w.registry && o' == ApplyOne(call, me, w.clock, o) && Carried(o, o', w.clock);
    }
  }

  /** What the read-only preflight of the sweeper looks for. */
  predicate AnyStale(w: World, cutoff: int) { exists o :: o in w.registry && o.StaleAt(cutoff) }

  /** A stale sweep with this cutoff closes the record, and as long as it is not
      closed the preflight announces the sweep. */
  ghost predicate SweptBy(w: World, me: Owner, message: string, cutoff: int, id: Id) {
    var sweep := Act(me, InterruptStale(cutoff, message));
    Enabled(w, sweep) && Closed(Step(w, sweep), id) && (Closed(w, id) || AnyStale(w, cutoff))
  }

  /** A record whose owner stopped renewing it: along any run that gives it no new
      beat it is closed or still shows the last one, and the first stale sweep of any
      tracker whose cutoff, a minute or more in the past, has reached that beat
      leaves it closed. */
  lemma AbandonedWorkIsInterrupted(w: World, run: seq<Event>, o: Operation, me: Owner, message: string, cutoff: int)
    requires Inv(w) && Valid(w, run) && o in w.registry && o.Active() && NeverRenewed(w, run, o.id)
    requires me in After(w, run).trackers && cutoff <= After(w, run).clock - 60
    requires o.Beat().None? || o.Beat().value <= cutoff
    ensures BeatIs(After(w, run), o.id, o.Beat())
    ensures SweptBy(After(w, run), me, message, cutoff, o.id)
  {
    OnlyRecord(w, o);
    SweptAtTheEnd(w, run, o.id, o.Beat(), me, message, cutoff);
  }

  lemma {:induction false} SweptAtTheEnd(w: World, run: seq<Event>, id: Id, beat: Option<int>, me: Owner, message: string, cutoff: int)
    requires Inv(w) && Valid(w, run) && id in Known(w) && BeatIs(w, id, beat) && NeverRenewed(w, run, id)
    requires me in After(w, run).trackers && cutoff <= After(w, run).clock - 60 && (beat.None? || beat.value <= cutoff)
    ensures BeatIs(After(w, run), id, beat) && SweptBy(After(w, run), me, message, cutoff, id)
    decreases |run|
  {
    if run == [] {
      StaleSweepCloses(w, me, message, cutoff, id, beat);
    } else {
      StepKeepsInv(w, run[0]);
      StepKeepsBeat(w, run[0], id, beat);
      SweptAtTheEnd(Step(w, run[0]), run[1..], id, beat, me, message, cutoff);
    }
  }

  lemma OnlyRecord(w: World, o: Operation)
    requires Inv(w) && o in w.registry
    ensures o.id in Known(w) && BeatIs(w, o.id, o.Beat())
  {
    assert o.id in IdsOf(w.registry);
    forall p | p in w.registry && p.id == o.id ensures p == o { SameIdSameRecord(w.registry, p, o); }
  }

  lemma StaleSweepCloses(w: World, me: Owner, message: string, cutoff: int, id: Id, beat: Option<int>)
    requires Inv(w) && me in w.trackers && cutoff <= w.clock - 60 && id in Known(w)
    requires BeatIs(w, id, beat) && (beat.None? || beat.value <= cutoff)
    ensures SweptBy(w, me, message, cutoff, id)
  {
    var call := InterruptStale(cutoff, message);
    var w' := Step(w, Act(me, call));
    forall o' | o' in w'.registry && o'.id == id ensures !o'.Active() {
      SweptRecordCloses(w, me, message, cutoff, id, beat, o');
    }
    if !Closed(w, id) {
      var o :| o in w.registry && o.id == id && o.Active();
      assert o.StaleAt(cutoff);
    }
  }

  lemma SweptRecordCloses(w: World, me: Owner, message: string, cutoff: int, id: Id, beat: Option<int>, o': Operation)
    requires me in w.trackers && BeatIs(w, id, beat) && (beat.None? || beat.value <= cutoff)
    requires o' in Write(InterruptStale(cutoff, message), me, w.clock, w.trackers[me].maxRecent, w.registry) && o'.id == id
    ensures !o'.Active()
  {
    var call := InterruptStale(cutoff, message);
    WrittenFrom(call, me, w.clock, w.trackers[me].maxRecent, w.registry, o');
    var p :| p in w.registry && o' == ApplyOne(call, me, w.clock, p) && AllowedChange(me, p, o');
  }

}
