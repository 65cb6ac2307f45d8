/** Many trackers over one registry row and one clock. Every event is one atomic
    storage write or one critical section of a tracker; everything in between may
    interleave: the clock is read before the write it stamps, a sweep picks its
    ids before it commits, ids are untracked some time after the write that made
    them untrackable, and a shutdown clears the tracked ids some time after it
    closed admission. A storage write that fails changes nothing: a start, a sweep
    or the clean-up of a failed start may be lost that way. */
module OperationProtocol {

  import opened Common
  import opened OperationRegistry

  datatype Sweep = Sweep(ids: set<Id>, at: int)

  datatype Tracker = Tracker(
    accepting: bool,
    maxRecent: nat,
    tracked: set<Id>,          // _heartbeat_operation_ids
    holding: Option<Id>,       // start() inside the state lock: written, not tracked yet
    sweep: Option<Sweep>,      // the heartbeat thread between choosing ids and its commit
    doomed: set<Id>,           // ids that finished calls are still going to untrack
    closing: nat,              // shutdown() calls that closed admission and have not returned
    lifespan: set<Id>,         // history: ids started since admission last opened
    overlapped: bool,          // history: a shutdown() had not returned when it did
    renewedAt: int,            // history: when the last committed sweep chose its ids
    committedAt: int)          // history: when it committed

  /** A start() call that has read the clock and waits for the state lock. */
  datatype Begun = Begun(owner: Owner, stamp: int)

  datatype World = World(
    registry: Registry,
    clock: int,
    latency: nat,              // longest time from reading the clock to writing the record
    used: set<Id>,
    begun: map<Id, Begun>,
    trackers: map<Owner, Tracker>)

  datatype Event =
    | Tick(to: int)
    | StartBegin(me: Owner, id: Id)
    | StartRefused(me: Owner, id: Id)
    | StartWrite(me: Owner, id: Id, total: Option<int>)
    | StartTrack(me: Owner)
    | StartAbort(me: Owner, saved: bool)
    | Act(me: Owner, call: Call)
    | Clear(me: Owner)
    | SweepBegin(me: Owner)
    | SweepCommit(me: Owner)
    | SweepLost(me: Owner)
    | Untrack(me: Owner, ids: set<Id>)
    | Shutdown(me: Owner)
    | Forget(me: Owner)
    | GiveUp(me: Owner)
    | Reopen(me: Owner)

  /** Calls a client or the sweeper makes; ids are unguessable before start() returns. */
  predicate Callable(w: World, call: Call) {
    match call
    case Update(id, _) => id !in w.begun
    case Renew(id) => id !in w.begun
    case Complete(id, status, _, _) => id !in w.begun && !status.Queued? && !status.Running?
    case InterruptStale(cutoff, _) => cutoff <= w.clock - 60
    case InterruptActive(_) => true
    case InterruptOrphaned(_) => true
    case RenewAll(_) => false
    case FailStart(_) => false
  }

  predicate Enabled(w: World, e: Event) {
    match e
    case Tick(to) => to >= w.clock
    case StartBegin(me, id) => me in w.trackers && id !in w.used
    case StartRefused(me, id) => me in w.trackers && id in w.begun && w.begun[id].owner == me
    case StartWrite(me, id, _) =>
      && me in w.trackers && w.trackers[me].accepting && w.trackers[me].holding.None?
      && id in w.begun && w.begun[id].owner == me && w.clock - w.begun[id].stamp <= w.latency
    case StartTrack(me) => me in w.trackers && w.trackers[me].holding.Some?
    case StartAbort(me, _) => me in w.trackers && w.trackers[me].holding.Some?
    case Act(me, call) => me in w.trackers && Callable(w, call)
    case Clear(me) => me in w.trackers
    case SweepBegin(me) =>
      me in w.trackers && w.trackers[me].sweep.None? && w.trackers[me].holding.None?
    case SweepCommit(me) => me in w.trackers && w.trackers[me].sweep.Some?
    case SweepLost(me) => me in w.trackers && w.trackers[me].sweep.Some?
    case Untrack(me, ids) => me in w.trackers && w.trackers[me].holding.None? && ids <= w.trackers[me].doomed
    case Shutdown(me) => me in w.trackers && w.trackers[me].holding.None?
    case Forget(me) => me in w.trackers && w.trackers[me].closing > 0 && w.trackers[me].holding.None?
    case GiveUp(me) => me in w.trackers && w.trackers[me].closing > 0
    case Reopen(me) =>
      me in w.trackers && !w.trackers[me].accepting && w.trackers[me].sweep.None? && w.trackers[me].holding.None?
  }

  /** What a finished call is going to untrack. */
  function Doomed(call: Call, me: Owner, r: Registry): set<Id> {
    match call
    case Complete(id, _, _, _) => {id}
    case InterruptActive(_) => SelectedIds(call, me, r)
    case InterruptStale(_, _) => SelectedIds(call, me, r)
    case InterruptOrphaned(_) => SelectedIds(call, me, r)
    case _ => {}
  }

  function With(w: World, me: Owner, t: Tracker): World { w.(trackers := w.trackers[me := t]) }

  function Step(w: World, e: Event): World
    requires Enabled(w, e)
  {
    match e
    case Tick(to) => w.(clock := to)
    case StartBegin(me, id) => w.(used := w.used + {id}, begun := w.begun[id := Begun(me, w.clock)])
    case StartRefused(me, id) => w.(begun := w.begun - {id})
    case StartWrite(me, id, total) =>
      var t := w.trackers[me];
      With(w.(registry := WriteStart(NewOperation(id, me, total, w.begun[id].stamp), t.maxRecent, w.registry),
              begun := w.begun - {id}),
           me, t.(holding := Some(id), lifespan := t.lifespan + {id}))
    case StartTrack(me) =>
      var t := w.trackers[me];
      With(w, me, t.(tracked := t.tracked + {t.holding.value}, holding := None))
    case StartAbort(me, saved) =>
      var t := w.trackers[me];
      With(if saved then w.(registry := Write(FailStart(t.holding.value), me, w.clock, t.maxRecent, w.registry)) else w,
           me, t.(tracked := t.tracked - {t.holding.value}, holding := None,
                  lifespan := if saved then t.lifespan else t.lifespan - {t.holding.value}))
    case Act(me, call) =>
      var t := w.trackers[me];
      var doomed := Doomed(call, me, w.registry);
      With(w.(registry := Write(call, me, w.clock, t.maxRecent, w.registry), used := w.used + doomed),
           me, t.(doomed := t.doomed + doomed))
    case Clear(me) => w.(registry := WriteClear(w.trackers[me].maxRecent, w.registry))
    case SweepBegin(me) =>
      var t := w.trackers[me];
      With(w, me, if t.tracked == {} then t.(renewedAt := w.clock, committedAt := w.clock)
                  else t.(sweep := Some(Sweep(t.tracked, w.clock))))
    case SweepCommit(me) =>
      var t := w.trackers[me];
      var call := RenewAll(t.sweep.value.ids);
      With(w.(registry := Write(call, me, w.clock, t.maxRecent, w.registry)),
           me, t.(sweep := None,
                  doomed := t.doomed + (t.sweep.value.ids - SelectedIds(call, me, w.registry)),
                  renewedAt := t.sweep.value.at,
                  committedAt := w.clock))
    case SweepLost(me) => With(w, me, w.trackers[me].(sweep := None))
    case Untrack(me, ids) =>
      var t := w.trackers[me];
      With(w, me, t.(tracked := t.tracked - ids))
    case Shutdown(me) =>
      var t := w.trackers[me];
      With(w, me, t.(accepting := false, closing := t.closing + 1))
    case Forget(me) =>
      var t := w.trackers[me];
      With(w, me, t.(tracked := {}, closing := t.closing - 1))
    case GiveUp(me) =>
      var t := w.trackers[me];
      With(w, me, t.(closing := t.closing - 1))
    case Reopen(me) =>
      var t := w.trackers[me];
      With(w, me, t.(accepting := true, tracked := {}, lifespan := {}, overlapped := t.closing > 0,
                     renewedAt := w.clock, committedAt := w.clock))
  }

  // ---------- undisturbed calls ----------

  /** A start stores the new record, stamped when it read the clock, and tracks it. */
  lemma StartGoesThrough(w: World, me: Owner, id: Id, total: Option<int>)
    requires Enabled(w, StartWrite(me, id, total)) && UniqueIds(w.registry)
    ensures
      var held := Step(w, StartWrite(me, id, total));
      && Enabled(held, StartTrack(me))
      && var tracked := Step(held, StartTrack(me));
         && (exists o :: o in tracked.registry && StartedAs(o, id, me, total, w.begun[id].stamp))
         && (forall o :: o in w.registry && o.Active() && o.id != id ==> o in tracked.registry)
         && tracked.trackers == w.trackers[me := tracked.trackers[me]]
         && tracked.trackers[me].tracked == w.trackers[me].tracked + {id} && tracked.trackers[me].holding == None
         && tracked.begun == w.begun - {id} && tracked.clock == w.clock
  {
    var o, t := NewOperation(id, me, total, w.begun[id].stamp), w.trackers[me];
    assert StartedAs(o, id, me, total, w.begun[id].stamp);
    PutSpec(w.registry, o);
    PruneSpec(Put(w.registry, o), t.maxRecent);
  }

  /** A sweep stamps every tracked record that is still active and this tracker's own, and
      marks the other ids for untracking. */
  lemma SweepGoesThrough(w: World, me: Owner)
    requires Enabled(w, SweepBegin(me)) && w.trackers[me].tracked != {} && UniqueIds(w.registry)
    ensures
      var begun, ids := Step(w, SweepBegin(me)), w.trackers[me].tracked;
      && Enabled(begun, SweepCommit(me))
      && var done := Step(begun, SweepCommit(me));
         && (forall o :: o in w.registry && o.Active() ==>
               (if o.owner == me && o.id in ids then o.(heartbeat := At(w.clock)) else o) in done.registry)
         && done.trackers == w.trackers[me := done.trackers[me]]
         && done.trackers[me].sweep == None && done.trackers[me].tracked == ids && done.trackers[me].renewedAt == w.clock
         && forall id :: id in ids ==>
              id in done.trackers[me].doomed || exists o :: o in w.registry && o.id == id && o.owner == me && o.Active()
  {
    SweepSteps(w, me);
    SweepStamps(w.trackers[me].tracked, me, w.clock, w.trackers[me].maxRecent, w.registry);
  }

  lemma SweepSteps(w: World, me: Owner)
    requires Enabled(w, SweepBegin(me)) && w.trackers[me].tracked != {}
    ensures Enabled(Step(w, SweepBegin(me)), SweepCommit(me))
    ensures
      var t, done := w.trackers[me], Step(Step(w, SweepBegin(me)), SweepCommit(me));
      && done.registry == Write(RenewAll(t.tracked), me, w.clock, t.maxRecent, w.registry)
      && done.trackers == w.trackers[me := done.trackers[me]]
      && done.trackers[me].sweep == None && done.trackers[me].tracked == t.tracked && done.trackers[me].renewedAt == w.clock
      && done.trackers[me].doomed == t.doomed + (t.tracked - SelectedIds(RenewAll(t.tracked), me, w.registry))
  { }

  lemma SweepStamps(ids: set<Id>, me: Owner, now: int, maxRecent: nat, r: Registry)
    requires UniqueIds(r)
    ensures forall o :: o in r && o.Active() ==>
      (if o.owner == me && o.id in ids then o.(heartbeat := At(now)) else o) in Write(RenewAll(ids), me, now, maxRecent, r)
    ensures forall id :: id in SelectedIds(RenewAll(ids), me, r) ==> exists o :: o in r && o.id == id && o.owner == me && o.Active()
  {
    var call := RenewAll(ids);
    WriteIsSafe(call, me, now, maxRecent, r);
    forall o | o in r && o.Active()
      ensures (if o.owner == me && o.id in ids then o.(heartbeat := At(now)) else o) in Write(call, me, now, maxRecent, r)
    {
      assert ApplyOne(call, me, now, o) in Write(call, me, now, maxRecent, r);
    }
  }

  /** A tracker can make every call at any time, but for ids whose start has not returned and
      for a threshold below a minute. */
  lemma CallsCanHappen(w: World, me: Owner, id: Id, patch: Patch, status: Status, message: string, error: Option<string>, cutoff: int)
    requires me in w.trackers
    ensures Enabled(w, Clear(me)) && Enabled(w, Act(me, InterruptActive(message))) && Enabled(w, Act(me, InterruptOrphaned(message)))
    ensures cutoff <= w.clock - 60 ==> Enabled(w, Act(me, InterruptStale(cutoff, message)))
    ensures id !in w.begun ==> Enabled(w, Act(me, Update(id, patch))) && Enabled(w, Act(me, Renew(id)))
    ensures id !in w.begun && status !in [Queued, Running] ==> Enabled(w, Act(me, Complete(id, status, message, error)))
  { }

  /** A shutdown closes admission first; the tracked ids go when the heartbeat thread ended in
      time and stay otherwise, and then it has returned. Reopening starts with none of them. */
  lemma ShutdownGoesThrough(w: World, me: Owner)
    requires Enabled(w, Shutdown(me))
    ensures
      var closed, t := Step(w, Shutdown(me)), w.trackers[me];
      && closed.trackers == w.trackers[me := t.(accepting := false, closing := t.closing + 1)] && closed.registry == w.registry
      && Enabled(closed, Forget(me)) && Step(closed, Forget(me)).trackers == w.trackers[me := t.(accepting := false, tracked := {})]
      && Enabled(closed, GiveUp(me)) && Step(closed, GiveUp(me)).trackers == w.trackers[me := t.(accepting := false)]
      && (t.sweep.None? ==>
            && Enabled(closed, Reopen(me))
            && var open := Step(closed, Reopen(me)).trackers[me];
               open.accepting && open.tracked == {} && open.lifespan == {} && open.overlapped && open.closing == t.closing + 1)
  { }

  /** A completed id and the ids of interrupted records can be untracked at once. */
  lemma CallUntracks(w: World, me: Owner, call: Call)
    requires Enabled(w, Act(me, call)) && w.trackers[me].holding.None?
    requires call.Complete? || call.InterruptActive? || call.InterruptOrphaned?
    ensures
      var gone := if call.Complete? then {call.id}
                  else set o | o in w.registry && o.Active() && (o.owner == me <==> call.InterruptActive?) :: o.id;
      var acted := Step(w, Act(me, call));
      && acted.registry == Write(call, me, w.clock, w.trackers[me].maxRecent, w.registry)
      && Enabled(acted, Untrack(me, gone)) && Step(acted, Untrack(me, gone)).trackers[me].tracked == w.trackers[me].tracked - gone
  {
    if call.InterruptActive? || call.InterruptOrphaned? {
      assert SelectedIds(call, me, w.registry) ==
        set o | o in w.registry && o.Active() && (o.owner == me <==> call.InterruptActive?) :: o.id;
    }
  }

  // ---------- what one write carries over ----------

  /** `o'` is the still active successor of the active record `o`. */
  ghost predicate Carried(o: Operation, o': Operation, now: int) {
    && o'.id == o.id && o'.owner == o.owner && o.Active() && o'.Active()
    && (o'.Beat() == o.Beat() || o'.Beat() == Some(now))
  }

  lemma WriteCarries(call: Call, me: Owner, now: int, maxRecent: nat, r: Registry)
    requires UniqueIds(r)
    ensures UniqueIds(Write(call, me, now, maxRecent, r))
    ensures IdsOf(Write(call, me, now, maxRecent, r)) <= IdsOf(r)
    ensures forall o' :: o' in Write(call, me, now, maxRecent, r) && o'.Active() ==>
              exists o :: o in r && o' == ApplyOne(call, me, now, o) && Carried(o, o', now)
  {
    WriteIsSafe(call, me, now, maxRecent, r);
    forall o' | o' in Write(call, me, now, maxRecent, r) && o'.Active()
      ensures exists o :: o in r && o' == ApplyOne(call, me, now, o) && Carried(o, o', now)
    {
      var o :| o in r && o' == ApplyOne(call, me, now, o) && AllowedChange(me, o, o');
    }
  }

  // ---------- the invariant ----------

  function Known(w: World): set<Id> { w.used - w.begun.Keys }

  /** Work a tracker started since it last opened, whose start() did not fail, and
      that has not been closed. */
  predicate Live(t: Tracker, me: Owner, o: Operation) {
    o.Active() && o.owner == me && o.id in t.lifespan
  }

  predicate BeatsSince(o: Operation, bound: int) { o.Beat().Some? && o.Beat().value >= bound }

  /** Admission is open, and when it opened every shutdown() had returned. */
  predicate Steady(t: Tracker) { t.accepting && !t.overlapped }

  ghost predicate RecordInv(w: World, t: Tracker, me: Owner, o: Operation) {
    Live(t, me, o) ==>
      && o.id !in t.doomed
      && (Steady(t) ==>
            && (o.id in t.tracked || t.holding == Some(o.id))
            && BeatsSince(o, t.renewedAt - w.latency)
            && (t.sweep.Some? && o.id !in t.sweep.value.ids ==> BeatsSince(o, t.sweep.value.at - w.latency)))
  }

  ghost predicate TrackerInv(w: World, me: Owner)
    requires me in w.trackers
  {
    var t := w.trackers[me];
    && (Steady(t) ==> t.closing == 0)
    && t.renewedAt <= w.clock && t.committedAt <= w.clock
    && (t.sweep.Some? ==> t.sweep.value.at <= w.clock && t.sweep.value.ids <= Known(w))
    && (t.holding.Some? ==> t.holding.value in Known(w))
    && t.tracked + t.lifespan + t.doomed <= Known(w)
    && forall o :: o in w.registry ==> RecordInv(w, t, me, o)
  }

  ghost predicate Inv(w: World) {
    && UniqueIds(w.registry)
    && IdsOf(w.registry) <= Known(w)
    && w.begun.Keys <= w.used
    && (forall id :: id in w.begun ==> w.begun[id].stamp <= w.clock)
    && forall me :: me in w.trackers ==> TrackerInv(w, me)
  }

  /** Every active record of `w'` continues one of `w`. */
  ghost predicate ContinuesFrom(w: World, w': World) {
    forall o' :: o' in w'.registry && o'.Active() ==> exists o :: o in w.registry && Carried(o, o', w'.clock)
  }

  lemma BystanderKeepsInv(w: World, w': World, me: Owner)
    requires me in w.trackers && TrackerInv(w, me)
    requires me in w'.trackers && w'.trackers[me] == w.trackers[me]
    requires w'.clock >= w.clock && w'.latency == w.latency && Known(w) <= Known(w')
    requires ContinuesFrom(w, w')
    ensures TrackerInv(w', me)
  {
    var t := w.trackers[me];
    forall o' | o' in w'.registry ensures RecordInv(w', t, me, o') {
      if Live(t, me, o') {
        var o :| o in w.registry && Carried(o, o', w'.clock);
        assert RecordInv(w, t, me, o);
      }
    }
  }

  lemma ActorKeepsInv(w: World, me: Owner, call: Call)
    requires Inv(w) && Enabled(w, Act(me, call))
    ensures TrackerInv(Step(w, Act(me, call)), me)
  {
    var w' := Step(w, Act(me, call));
    var t := w.trackers[me];
    WriteCarries(call, me, w.clock, t.maxRecent, w.registry);
    DoomedIsKnown(w, me, call);
    assert TrackerInv(w, me);
    forall o' | o' in w'.registry ensures RecordInv(w', w'.trackers[me], me, o') {
      if Live(t, me, o') {
        var o :| o in w.registry && o' == ApplyOne(call, me, w.clock, o) && Carried(o, o', w.clock);
        StaysUndoomed(call, me, w.clock, w.registry, o);
        ActedRecord(w, w', t, me, Doomed(call, me, w.registry), o, o');
      }
    }
  }

  lemma ActedRecord(w: World, w': World, t: Tracker, me: Owner, doomed: set<Id>, o: Operation, o': Operation)
    requires RecordInv(w, t, me, o) && Carried(o, o', w.clock) && o.id !in doomed && w'.latency == w.latency
    requires t.renewedAt <= w.clock && (t.sweep.Some? ==> t.sweep.value.at <= w.clock)
    ensures RecordInv(w', t.(doomed := t.doomed + doomed), me, o')
  { }

  lemma DoomedIsKnown(w: World, me: Owner, call: Call)
    requires Inv(w) && Enabled(w, Act(me, call))
    ensures Doomed(call, me, w.registry) <= Known(Step(w, Act(me, call)))
  {
    forall id | id in SelectedIds(call, me, w.registry) ensures id in Known(w) { assert id in IdsOf(w.registry); }
  }

  /** Client calls: whatever is going to be untracked is no longer live. */
  lemma ActKeepsInv(w: World, me: Owner, call: Call)
    requires Inv(w) && Enabled(w, Act(me, call))
    ensures Inv(Step(w, Act(me, call)))
  {
    var w' := Step(w, Act(me, call));
    WriteCarries(call, me, w.clock, w.trackers[me].maxRecent, w.registry);
    ActorKeepsInv(w, me, call);
    forall other | other in w'.trackers && other != me ensures TrackerInv(w', other) {
      BystanderKeepsInv(w, w', other);
    }
  }

  lemma StaysUndoomed(call: Call, me: Owner, now: int, r: Registry, o: Operation)
    requires UniqueIds(r) && o in r && o.owner == me && ApplyOne(call, me, now, o).Active()
    requires call.Complete? ==> !call.status.Queued? && !call.status.Running?
    ensures o.id !in Doomed(call, me, r)
  {
    forall x | x in r && Selects(call, me, x) ensures x.id == o.id ==> x == o { SameIdSameRecord(r, x, o); }
  }

  lemma StarterKeepsInv(w: World, me: Owner, id: Id, total: Option<int>)
    requires Inv(w) && Enabled(w, StartWrite(me, id, total))
    ensures TrackerInv(Step(w, StartWrite(me, id, total)), me)
  {
    var w' := Step(w, StartWrite(me, id, total));
    var t := w.trackers[me];
    var added := NewOperation(id, me, total, w.begun[id].stamp);
    StartWriteSpec(w.registry, added, t.maxRecent);
    assert TrackerInv(w, me);
    forall o' | o' in w'.registry ensures RecordInv(w', w'.trackers[me], me, o') {
      StartedRecord(w, w', me, id, total, o');
    }
  }

  lemma StartedRecord(w: World, w': World, me: Owner, id: Id, total: Option<int>, o: Operation)
    requires Inv(w) && Enabled(w, StartWrite(me, id, total)) && w'.latency == w.latency
    requires o in w.registry || o == NewOperation(id, me, total, w.begun[id].stamp)
    ensures var t := w.trackers[me]; RecordInv(w', t.(holding := Some(id), lifespan := t.lifespan + {id}), me, o)
  {
    assert TrackerInv(w, me);
    if o in w.registry {
      OtherRecord(w, me, id, o);
      OlderRecord(w, w', w.trackers[me], me, id, o);
    } else {
      NewRecord(w, w', w.trackers[me], me, id, total);
    }
  }

  lemma OtherRecord(w: World, me: Owner, id: Id, o: Operation)
    requires Inv(w) && me in w.trackers && o in w.registry && id in w.begun
    ensures RecordInv(w, w.trackers[me], me, o) && o.id != id
  {
    assert o.id in IdsOf(w.registry) && TrackerInv(w, me);
  }

  lemma NewRecord(w: World, w': World, t: Tracker, me: Owner, id: Id, total: Option<int>)
    requires id in w.begun && id !in t.doomed && w.clock - w.begun[id].stamp <= w.latency && w'.latency == w.latency
    requires t.renewedAt <= w.clock && (t.sweep.Some? ==> t.sweep.value.at <= w.clock)
    ensures RecordInv(w', t.(holding := Some(id), lifespan := t.lifespan + {id}), me, NewOperation(id, me, total, w.begun[id].stamp))
  { }

  lemma OlderRecord(w: World, w': World, t: Tracker, me: Owner, id: Id, o: Operation)
    requires RecordInv(w, t, me, o) && t.holding.None? && o.id != id && w'.latency == w.latency
    ensures RecordInv(w', t.(holding := Some(id), lifespan := t.lifespan + {id}), me, o)
  { }

  lemma StartWriteKeepsInv(w: World, me: Owner, id: Id, total: Option<int>)
    requires Inv(w) && Enabled(w, StartWrite(me, id, total))
    ensures Inv(Step(w, StartWrite(me, id, total)))
  {
    var w' := Step(w, StartWrite(me, id, total));
    var added := NewOperation(id, me, total, w.begun[id].stamp);
    StartWriteSpec(w.registry, added, w.trackers[me].maxRecent);
    StarterKeepsInv(w, me, id, total);
    forall other | other in w'.trackers && other != me ensures TrackerInv(w', other) {
      OthersIgnoreNewRecord(w, w', other, added);
    }
  }

  lemma OthersIgnoreNewRecord(w: World, w': World, other: Owner, added: Operation)
    requires other in w.trackers && TrackerInv(w, other)
    requires other in w'.trackers && w'.trackers[other] == w.trackers[other] && added.owner != other
    requires w'.clock == w.clock && w'.latency == w.latency && Known(w) <= Known(w')
    requires forall o :: o in w'.registry ==> o == added || o in w.registry
    ensures TrackerInv(w', other)
  {
    forall o' | o' in w'.registry ensures RecordInv(w', w'.trackers[other], other, o') {
      if o' != added { assert RecordInv(w, w.trackers[other], other, o'); }
    }
  }

  lemma StartWriteSpec(r: Registry, added: Operation, maxRecent: nat)
    requires UniqueIds(r) && added.id !in IdsOf(r)
    ensures UniqueIds(WriteStart(added, maxRecent, r))
    ensures IdsOf(WriteStart(added, maxRecent, r)) <= IdsOf(r) + {added.id}
    ensures forall o :: o in WriteStart(added, maxRecent, r) ==> o == added || o in r
    ensures forall o :: o in r && o.Active() ==> o in WriteStart(added, maxRecent, r)
    ensures added.Active() ==> added in WriteStart(added, maxRecent, r)
  {
    PutUnique(r, added);
    PutSpec(r, added);
    PruneUnique(Put(r, added), maxRecent);
    PruneSpec(Put(r, added), maxRecent);
  }

  lemma AborterKeepsInv(w: World, me: Owner)
    requires Inv(w) && Enabled(w, StartAbort(me, true))
    ensures TrackerInv(Step(w, StartAbort(me, true)), me)
  {
    var w' := Step(w, StartAbort(me, true));
    var t := w.trackers[me];
    WriteCarries(FailStart(t.holding.value), me, w.clock, t.maxRecent, w.registry);
    assert TrackerInv(w, me);
    forall o' | o' in w'.registry ensures RecordInv(w', w'.trackers[me], me, o') {
      if o'.Active() {
        var o :| o in w.registry && o' == ApplyOne(FailStart(t.holding.value), me, w.clock, o) && Carried(o, o', w.clock);
        AbortedRecord(w, w', t, me, o, o');
      }
    }
  }

  /** A record still active after the clean-up is another one, unchanged. */
  lemma AbortedRecord(w: World, w': World, t: Tracker, me: Owner, o: Operation, o': Operation)
    requires RecordInv(w, t, me, o) && t.holding.Some? && w'.latency == w.latency && o'.Active()
    requires o' == ApplyOne(FailStart(t.holding.value), me, w.clock, o)
    ensures RecordInv(w', t.(tracked := t.tracked - {t.holding.value}, holding := None), me, o')
  {
    FailStartCloses(t.holding.value, me, w.clock, o);
  }

  lemma StartAbortKeepsInv(w: World, me: Owner)
    requires Inv(w) && Enabled(w, StartAbort(me, true))
    ensures Inv(Step(w, StartAbort(me, true)))
  {
    var w' := Step(w, StartAbort(me, true));
    WriteCarries(FailStart(w.trackers[me].holding.value), me, w.clock, w.trackers[me].maxRecent, w.registry);
    AborterKeepsInv(w, me);
    forall other | other in w'.trackers && other != me ensures TrackerInv(w', other) {
      BystanderKeepsInv(w, w', other);
    }
  }

  lemma FailStartCloses(id: Id, me: Owner, now: int, o: Operation)
    ensures o.id == id && o.owner == me ==> !ApplyOne(FailStart(id), me, now, o).Active()
    ensures !(o.id == id && o.owner == me) ==> ApplyOne(FailStart(id), me, now, o) == o
  { }

  lemma SweeperKeepsInv(w: World, me: Owner)
    requires Inv(w) && Enabled(w, SweepCommit(me))
    ensures TrackerInv(Step(w, SweepCommit(me)), me)
  {
    var w' := Step(w, SweepCommit(me));
    var t, t' := w.trackers[me], w'.trackers[me];
    var ids := t.sweep.value.ids;
    var call := RenewAll(ids);
    WriteCarries(call, me, w.clock, t.maxRecent, w.registry);
    assert TrackerInv(w, me);
    forall o' | o' in w'.registry ensures RecordInv(w', t', me, o') {
      if Live(t', me, o') {
        var o :| o in w.registry && o' == ApplyOne(call, me, w.clock, o) && Carried(o, o', w.clock);
        assert RecordInv(w, t, me, o);
        SweptRecord(ids, me, w.clock, w.registry, o);
      }
    }
  }

  lemma SweptRecord(ids: set<Id>, me: Owner, now: int, r: Registry, o: Operation)
    requires o in r && o.owner == me && o.Active()
    ensures o.id in ids ==> o.id in SelectedIds(RenewAll(ids), me, r) && ApplyOne(RenewAll(ids), me, now, o).Beat() == Some(now)
    ensures o.id !in ids ==> ApplyOne(RenewAll(ids), me, now, o) == o
  {
    if o.id in ids { assert Selects(RenewAll(ids), me, o); }
  }

  lemma SweepCommitKeepsInv(w: World, me: Owner)
    requires Inv(w) && Enabled(w, SweepCommit(me))
    ensures Inv(Step(w, SweepCommit(me)))
  {
    var w' := Step(w, SweepCommit(me));
    WriteCarries(RenewAll(w.trackers[me].sweep.value.ids), me, w.clock, w.trackers[me].maxRecent, w.registry);
    SweeperKeepsInv(w, me);
    forall other | other in w'.trackers && other != me ensures TrackerInv(w', other) {
      BystanderKeepsInv(w, w', other);
    }
  }

  lemma ClearKeepsInv(w: World, me: Owner)
    requires Inv(w) && Enabled(w, Clear(me))
    ensures Inv(Step(w, Clear(me)))
  {
    var w' := Step(w, Clear(me));
    FiltersSplit(w.registry);
    UniqueSub(w.registry, ActiveOf(w.registry));
    PruneUnique(ActiveOf(w.registry), w.trackers[me].maxRecent);
    PruneSpec(ActiveOf(w.registry), w.trackers[me].maxRecent);
    forall o' | o' in w'.registry ensures o' in w.registry && Carried(o', o', w'.clock) { }
    forall other | other in w'.trackers ensures TrackerInv(w', other) {
      BystanderKeepsInv(w, w', other);
    }
  }

  /** Events that leave the store alone: of no tracker in particular, */
  predicate Shared(e: Event) { e.Tick? || e.StartBegin? || e.StartRefused? }

  /** of the calls and the heartbeat thread of one, */
  predicate Local(e: Event) { e.StartTrack? || e.SweepBegin? || e.SweepLost? || e.Untrack? }

  /** and those that open or close one or give a start up. */
  predicate Lifecycle(e: Event) {
    e.Shutdown? || e.Forget? || e.GiveUp? || e.Reopen? || (e.StartAbort? && !e.saved)
  }

  lemma LifecycleKeepsTracker(w: World, e: Event)
    requires Inv(w) && Enabled(w, e) && Lifecycle(e)
    ensures TrackerInv(Step(w, e), e.me)
  {
    var w', t := Step(w, e), w.trackers[e.me];
    var t' := w'.trackers[e.me];
    assert TrackerInv(w, e.me);
    forall o | o in w'.registry ensures RecordInv(w', t', e.me, o) { assert RecordInv(w, t, e.me, o); }
  }

  lemma LocalKeepsTracker(w: World, e: Event)
    requires Inv(w) && Enabled(w, e) && Local(e)
    ensures TrackerInv(Step(w, e), e.me)
  {
    var w', t := Step(w, e), w.trackers[e.me];
    var t' := w'.trackers[e.me];
    assert TrackerInv(w, e.me);
    forall o | o in w'.registry ensures RecordInv(w', t', e.me, o) { assert RecordInv(w, t, e.me, o); }
  }

  predicate Storeless(e: Event) { Shared(e) || Local(e) || Lifecycle(e) }

  lemma StorelessFrame(w: World, e: Event)
    requires Inv(w) && Enabled(w, e) && Storeless(e)
    ensures var w' := Step(w, e);
            && w'.registry == w.registry && w'.latency == w.latency && w'.clock >= w.clock && Known(w) <= Known(w')
            && w'.begun.Keys <= w'.used && forall id :: id in w'.begun ==> w'.begun[id].stamp <= w'.clock
  { }

  lemma OtherTrackersStay(w: World, e: Event)
    requires Enabled(w, e) && Storeless(e)
    ensures Step(w, e).trackers.Keys == w.trackers.Keys
    ensures forall me :: me in w.trackers && (Shared(e) || me != e.me) ==> Step(w, e).trackers[me] == w.trackers[me]
  { }

  lemma OthersKeepTracker(w: World, w': World, me: Owner)
    requires me in w.trackers && TrackerInv(w, me) && me in w'.trackers && w'.trackers[me] == w.trackers[me]
    requires w'.registry == w.registry && w'.latency == w.latency && w'.clock >= w.clock && Known(w) <= Known(w')
    ensures TrackerInv(w', me)
  {
    forall o | o in w.registry && o.Active() ensures Carried(o, o, w'.clock) { }
    BystanderKeepsInv(w, w', me);
  }

  lemma StorelessKeepsInv(w: World, e: Event)
    requires Inv(w) && Enabled(w, e) && Storeless(e)
    ensures Inv(Step(w, e))
  {
    StorelessFrame(w, e);
    OtherTrackersStay(w, e);
    forall me | me in Step(w, e).trackers ensures TrackerInv(Step(w, e), me) {
      if Shared(e) || me != e.me {
        OthersKeepTracker(w, Step(w, e), me);
      } else if Local(e) {
        LocalKeepsTracker(w, e);
      } else {
        LifecycleKeepsTracker(w, e);
      }
    }
  }

  lemma StepKeepsInv(w: World, e: Event)
    requires Inv(w) && Enabled(w, e)
    ensures Inv(Step(w, e))
  {
    match e
    case StartWrite(me, id, total) => StartWriteKeepsInv(w, me, id, total);
    case StartAbort(me, saved) =>
      if saved {
        StartAbortKeepsInv(w, me);
      } else {
        StorelessKeepsInv(w, e);
      }
    case Act(me, call) => ActKeepsInv(w, me, call);
    case Clear(me) => ClearKeepsInv(w, me);
    case SweepCommit(me) => SweepCommitKeepsInv(w, me);
    case _ => StorelessKeepsInv(w, e);
  }
}
