/** Start, stop, worker and finalization of workflows, interleaved at the manager
    lock. The final status is published before the durable lease is released, so
    exclusivity cannot rest on the status: it rests on the worker thread. */
module WorkflowProtocol {

  import opened Common

  type Wid = nat
  type Lease = nat

  datatype Status = Idle | Running | Stopping | Completed | Failed

  /** Where a worker thread is. `Leaving` covers the callback up to thread exit. */
  datatype Phase =
    | Stepping
    | Persisting
    | Publishing(saved: bool)
    | Releasing
    | Leaving
    | Exited

  /** How the part of start() that claims durable ownership ends. */
  datatype ClaimOutcome =
    | NoLease                            // storage has a lease but it is taken, or acquiring raised
    | Refused(lease: Lease)              // acquired, then the claim was rejected or raised
    | HeartbeatUnstarted(lease: Lease)   // claimed, then the heartbeat thread did not start
    | HeartbeatAbandoned(lease: Lease)   // claimed, heartbeat start raised but the thread lives
    | Untracked(held: Option<Lease>)    // owned, then the operation could not be recorded
    | Owned(held: Option<Lease>)        // worker started; without a lease contract, no lease

  datatype State = State(
    accepting: bool,
    status: Status,
    current: Option<Wid>,
    stopRequested: bool,
    lease: Option<Lease>,
    finalizing: Option<Wid>,
    finalized: Option<Wid>,
    thread: Option<Wid>,                 // self._thread
    abandoned: Option<Wid>,              // a heartbeat thread that will clean up
    phase: map<Wid, Phase>,              // every worker ever started
    issued: set<Wid>,
    acquired: map<Lease, Wid>,           // history
    released: map<Lease, seq<Wid>>,      // history: who released each lease
    published: map<Wid, nat>)            // history: how often each workflow published a final status

  datatype Event =
    | Open(accept: bool)
    | Start(id: Wid, claim: ClaimOutcome)
    | Stop
    | FinishSteps(id: Wid)               // _run_workflow reaches its finally block
    | Persist(id: Wid, saved: bool)
    | Publish(id: Wid, saved: bool, final: Status)
    | ReleaseLease(id: Wid)
    | Exit(id: Wid)
    | AbandonedCleanup

  predicate Alive(s: State, w: Wid) { w in s.phase && s.phase[w] != Exited }

  predicate CanStart(s: State) {
    && s.accepting && !Busy(s)
    && (s.thread.None? || !Alive(s, s.thread.value))
  }

  function Claimed(c: ClaimOutcome): Option<Lease> {
    match c
    case NoLease => None
    case Refused(l) => Some(l)
    case HeartbeatUnstarted(l) => Some(l)
    case HeartbeatAbandoned(l) => Some(l)
    case Untracked(l) => l
    case Owned(l) => l
  }

  predicate At(s: State, w: Wid, p: Phase) { w in s.phase && s.phase[w] == p }

  function NowAt(s: State, id: Wid, p: Phase): State { s.(phase := s.phase[id := p]) }

  function ReleasersOf(s: State, l: Lease): seq<Wid> { if l in s.released then s.released[l] else [] }

  function Publications(s: State, w: Wid): nat { if w in s.published then s.published[w] else 0 }

  function WithPublication(s: State, w: Wid): State { s.(published := s.published[w := Publications(s, w) + 1]) }

  /** `_release_workflow_lease`: whoever calls it takes what the slot holds. */
  function TakeLease(s: State, id: Wid): State {
    if s.lease.None? then s
    else s.(lease := None, released := s.released[s.lease.value := ReleasersOf(s, s.lease.value) + [id]])
  }

  /** `_reset_unstarted_workflow_locked`. */
  function Reset(s: State): State {
    s.(status := Idle, current := None, lease := None, finalizing := None, finalized := None, thread := None)
  }

  /** `_publish_workflow_start_locked` for a fresh id. */
  function Published(s: State, id: Wid): State {
    s.(status := Running, current := Some(id), stopRequested := false, finalizing := None, finalized := None,
       issued := s.issued + {id})
  }

  function Acquire(s: State, id: Wid, l: Option<Lease>): State {
    if l.None? then s else s.(lease := l, acquired := s.acquired[l.value := id])
  }

  /** `_cleanup_unstarted_workflow_after_signal`, all of it under the manager lock:
      publish a failure for the current workflow, give the lease back, reset. */
  function CleanUp(s: State, id: Wid): State {
    var published := if s.current == Some(id) && s.finalized != Some(id) && s.finalizing != Some(id)
                     then WithPublication(s, id) else s;
    Reset(TakeLease(published, id))
  }

  /** start() after its admission check, for a fresh id and fresh lease. */
  function Started(s: State, id: Wid, claim: ClaimOutcome): State {
    var p := Published(s, id);
    match claim
    case NoLease => Reset(p)
    case Refused(l) => Reset(TakeLease(Acquire(p, id, Some(l)), id))
    case HeartbeatUnstarted(l) => Reset(TakeLease(Acquire(p, id, Some(l)), id))
    case HeartbeatAbandoned(l) => Acquire(p, id, Some(l)).(abandoned := Some(id))
    case Untracked(l) => CleanUp(Acquire(p, id, l), id)
    case Owned(l) => NowAt(Acquire(p, id, l).(thread := Some(id)), id, Stepping)
  }

  predicate FreshStart(s: State, id: Wid, claim: ClaimOutcome) {
    id !in s.issued && (Claimed(claim).Some? ==> Claimed(claim).value !in s.acquired)
  }

  function Finishing(s: State, id: Wid): State {
    if s.current != Some(id) || s.finalized == Some(id) || s.finalizing == Some(id) then NowAt(s, id, Leaving)
    else NowAt(s.(finalizing := Some(id)), id, Persisting)
  }

  function Publishes(s: State, id: Wid, saved: bool, final: Status): State {
    if s.current != Some(id) then NowAt(s.(finalizing := None), id, if saved then Leaving else Releasing)
    else if saved then
      NowAt(WithPublication(s, id).(status := final, finalized := Some(id), finalizing := None), id, Releasing)
    else
      NowAt(WithPublication(s, id).(status := Failed, finalizing := None), id, Releasing)
  }

  function AbandonedCleaned(s: State, id: Wid): State {
    if s.current == Some(id) && (s.thread.None? || !Alive(s, s.thread.value)) then CleanUp(s, id).(abandoned := None)
    else s.(abandoned := None)
  }

  /** An event that cannot happen in a state leaves it as it is. */
  function Step(s: State, e: Event): State {
    match e
    case Open(accept) => if accept && s.thread.Some? && Alive(s, s.thread.value) then s else s.(accepting := accept)
    case Start(id, claim) => if FreshStart(s, id, claim) && CanStart(s) then Started(s, id, claim) else s
    case Stop => if Busy(s) then s.(stopRequested := true, status := Stopping) else s
    case FinishSteps(id) => if At(s, id, Stepping) then Finishing(s, id) else s
    case Persist(id, saved) => if At(s, id, Persisting) then NowAt(s, id, Publishing(saved)) else s
    case Publish(id, saved, final) =>
      if At(s, id, Publishing(saved)) && (final == Completed || final == Failed) then Publishes(s, id, saved, final) else s
    case ReleaseLease(id) => if At(s, id, Releasing) then NowAt(TakeLease(s, id), id, Leaving) else s
    case Exit(id) => if At(s, id, Leaving) then NowAt(s, id, Exited) else s
    case AbandonedCleanup => if s.abandoned.Some? then AbandonedCleaned(s, s.abandoned.value) else s
  }

  const INITIAL := State(true, Idle, None, false, None, None, None, None, None, map[], {}, map[], map[], map[])

  function After(s: State, run: seq<Event>): State
    decreases |run|
  {
    if run == [] then s else After(Step(s, run[0]), run[1..])
  }

  // ---------- undisturbed workflows ----------

  /** From the end of the steps to the end of the thread. */
  function Ended(s: State, id: Wid, saved: bool, final: Status): State {
    Step(Step(Step(Step(Step(s, FinishSteps(id)), Persist(id, saved)), Publish(id, saved, final)), ReleaseLease(id)), Exit(id))
  }

  /** A workflow that may start is running, with its lease in the slot and its worker in
      the first step; */
  lemma StartGoesThrough(s: State, id: Wid, l: Lease)
    requires CanStart(s) && FreshStart(s, id, Owned(Some(l)))
    ensures
      var t := Step(s, Start(id, Owned(Some(l))));
      && t.status == Running && t.current == Some(id) && t.thread == Some(id) && !t.stopRequested
      && t.lease == Some(l) && t.acquired == s.acquired[l := id] && t.released == s.released
      && t.phase == s.phase[id := Stepping] && t.published == s.published && id in t.issued && t.accepting == s.accepting
    ensures Step(Step(s, Start(id, Owned(Some(l)))), Stop).status == Stopping && Step(Step(s, Start(id, Owned(Some(l)))), Stop).stopRequested
  { }

  /** a claim that is refused, a heartbeat that does not start and an operation that cannot
      be recorded leave no lease and no worker behind; */
  lemma FailedStartIsUndone(s: State, id: Wid, l: Lease, claim: ClaimOutcome)
    requires CanStart(s) && FreshStart(s, id, claim)
    requires claim == Refused(l) || claim == HeartbeatUnstarted(l) || claim == Untracked(Some(l))
    ensures
      var t := Step(s, Start(id, claim));
      && t.status == Idle && t.current == None && t.thread == None && t.lease == None && t.phase == s.phase
      && t.acquired == s.acquired[l := id] && ReleasersOf(t, l) == ReleasersOf(s, l) + [id]
  { }

  /** and one whose steps are over publishes its final status, a failure when that cannot be
      saved, gives back its lease and is gone. */
  lemma EndGoesThrough(s: State, id: Wid, l: Lease, saved: bool, final: Status)
    requires At(s, id, Stepping) && s.current == Some(id) && s.finalized != Some(id) && s.finalizing != Some(id)
    requires s.lease == Some(l) && (final == Completed || final == Failed)
    ensures
      var t := Ended(s, id, saved, final);
      && t.status == (if saved then final else Failed) && t.lease == None && ReleasersOf(t, l) == ReleasersOf(s, l) + [id]
      && t.phase == s.phase[id := Exited] && Publications(t, id) == Publications(s, id) + 1
      && t.finalized == (if saved then Some(id) else s.finalized) && t.finalizing == None && t.acquired == s.acquired
  {
    var published := Step(Step(Step(s, FinishSteps(id)), Persist(id, saved)), Publish(id, saved, final));
    PublishGoesThrough(s, id, saved, final);
    assert Ended(s, id, saved, final) == NowAt(NowAt(TakeLease(published, id), id, Leaving), id, Exited);
  }

  /** One that is not the current workflow any more publishes nothing; when it could not be
      saved it still goes on to its release. */
  lemma OthersPublishNothing(s: State, id: Wid, saved: bool, final: Status)
    requires At(s, id, Publishing(saved)) && s.current != Some(id) && (final == Completed || final == Failed)
    ensures
      var t := Step(s, Publish(id, saved, final));
      && t.status == s.status && t.published == s.published && t.lease == s.lease && t.finalized == s.finalized && t.finalizing == None
      && t.phase[id] == if saved then Leaving else Releasing
  { }

  /** The thread of an abandoned start cleans up after it, unless another workflow is current
      or a worker lives. */
  lemma AbandonedIsCleanedUp(s: State, id: Wid)
    requires s.abandoned == Some(id)
    ensures
      var t := Step(s, AbandonedCleanup);
      if s.current == Some(id) && (s.thread.None? || !Alive(s, s.thread.value)) then
        && t.status == Idle && t.current == None && t.lease == None && t.thread == None && t.abandoned == None && t.phase == s.phase
        && (s.lease.Some? ==> ReleasersOf(t, s.lease.value) == ReleasersOf(s, s.lease.value) + [id])
        && (s.finalized != Some(id) && s.finalizing != Some(id) ==> Publications(t, id) == Publications(s, id) + 1)
      else t == s.(abandoned := None)
  {
    CleanUpIsExact(s, id);
  }

  lemma CleanUpIsExact(s: State, id: Wid)
    ensures
      var t := CleanUp(s, id);
      && t.status == Idle && t.current == None && t.lease == None && t.thread == None && t.phase == s.phase
      && (s.lease.Some? ==> ReleasersOf(t, s.lease.value) == ReleasersOf(s, s.lease.value) + [id])
      && (s.current == Some(id) && s.finalized != Some(id) && s.finalizing != Some(id) ==> Publications(t, id) == Publications(s, id) + 1)
  {
    var published := WithPublication(s, id);
    assert Publications(published, id) == Publications(s, id) + 1;
  }

  lemma PublishGoesThrough(s: State, id: Wid, saved: bool, final: Status)
    requires At(s, id, Stepping) && s.current == Some(id) && s.finalized != Some(id) && s.finalizing != Some(id)
    requires final == Completed || final == Failed
    ensures
      var t := Step(Step(Step(s, FinishSteps(id)), Persist(id, saved)), Publish(id, saved, final));
      && t.status == (if saved then final else Failed) && t.phase == s.phase[id := Releasing]
      && Publications(t, id) == Publications(s, id) + 1 && t.finalized == (if saved then Some(id) else s.finalized)
      && t.finalizing == None && t.lease == s.lease && t.released == s.released && t.acquired == s.acquired
  { }

  // ---------- the invariant ----------

  /** A lease is in the manager's slot, not yet released and owned by the current
      workflow, or it has been released once, by the workflow that acquired it. */
  ghost predicate LeaseInv(s: State) {
    && (forall l :: l in s.acquired ==>
          ReleasersOf(s, l) == if s.lease == Some(l) then [] else [s.acquired[l]])
    && (forall l :: l !in s.acquired ==> ReleasersOf(s, l) == [])
    && (s.lease.Some? ==> s.lease.value in s.acquired && s.current == Some(s.acquired[s.lease.value]))
  }

  ghost predicate ThreadInv(s: State) {
    && (forall w :: w in s.phase && Alive(s, w) ==> s.thread == Some(w) && s.current == Some(w))
    && s.phase.Keys <= s.issued
    && (s.current.Some? ==> s.current.value in s.issued)
    && (s.abandoned.Some? ==> s.abandoned.value in s.issued && s.abandoned.value !in s.phase)
  }

  predicate Busy(s: State) { s.status == Running || s.status == Stopping }

  predicate Unpublished(s: State, w: Wid) {
    w in s.phase && (s.phase[w].Stepping? || s.phase[w].Persisting? || s.phase[w].Publishing?)
  }

  predicate AtRelease(s: State, w: Wid) { w in s.phase && s.phase[w].Releasing? }

  predicate AwaitsCleanup(s: State) { Busy(s) && s.abandoned.Some? && s.abandoned == s.current }

  /** Who still owes what: a lease in the slot belongs to a live worker that has not
      reached its release, or to an abandoned start; nothing else keeps one. */
  ghost predicate OwnerInv(s: State) {
    && (s.lease.Some? ==>
          s.current.Some? && (Unpublished(s, s.current.value) || AtRelease(s, s.current.value) || AwaitsCleanup(s)))
    && (Busy(s) ==> s.current.Some? && (Unpublished(s, s.current.value) || AwaitsCleanup(s)))
    && (forall w :: w in s.phase && s.phase[w].Stepping? ==> s.finalizing != Some(w) && s.finalized != Some(w))
    && (s.abandoned.Some? ==> AwaitsCleanup(s) && s.finalizing != s.abandoned && s.finalized != s.abandoned)
  }

  ghost predicate PublishInv(s: State) {
    && (forall w :: w in s.published ==> s.published[w] == 1 && w in s.issued && Some(w) != s.abandoned)
    && (forall w :: w in s.phase && Unpublished(s, w) ==> w !in s.published)
  }

  ghost predicate Inv(s: State) { LeaseInv(s) && ThreadInv(s) && OwnerInv(s) && PublishInv(s) }

  /** While a new workflow may start, every earlier one is over. */
  lemma NoneAlive(s: State)
    requires Inv(s) && CanStart(s)
    ensures s.lease == None && s.abandoned == None
    ensures forall w :: w in s.phase ==> s.phase[w] == Exited
  { }

  /** A start that ends in a reset leaves the ledger one entry richer at most. */
  lemma AfterReset(s: State, s': State, id: Wid)
    requires ThreadInv(s) && PublishInv(s) && id !in s.published && id !in s.phase
    requires forall w :: w in s.phase ==> s.phase[w] == Exited
    requires s'.status == Idle && s'.current == None && s'.lease == None && s'.thread == None && s'.abandoned == None
    requires s'.finalizing == None && s'.finalized == None
    requires s'.phase == s.phase && s'.issued == s.issued + {id}
    requires s'.published == s.published || s'.published == s.published[id := 1]
    requires LeaseInv(s')
    ensures Inv(s')
  { }

  lemma FailedStart(s: State, s': State, id: Wid, l: Lease)
    requires Inv(s) && id !in s.issued && l !in s.acquired && CanStart(s)
    requires s'.status == Idle && s'.current == None && s'.lease == None && s'.thread == None
    requires s'.abandoned == s.abandoned && s'.finalizing == None && s'.finalized == None
    requires s'.phase == s.phase && s'.issued == s.issued + {id}
    requires s'.published == s.published || s'.published == s.published[id := 1]
    requires s'.acquired == s.acquired[l := id] && s'.released == s.released[l := ReleasersOf(s, l) + [id]]
    ensures Inv(s')
  {
    NoneAlive(s);
    AfterReset(s, s', id);
  }

  lemma UnleasedStart(s: State, s': State, id: Wid)
    requires Inv(s) && id !in s.issued && CanStart(s)
    requires s'.status == Idle && s'.current == None && s'.lease == None && s'.thread == None
    requires s'.abandoned == s.abandoned && s'.finalizing == None && s'.finalized == None
    requires s'.phase == s.phase && s'.issued == s.issued + {id}
    requires s'.published == s.published || s'.published == s.published[id := 1]
    requires s'.acquired == s.acquired && s'.released == s.released
    ensures Inv(s')
  {
    NoneAlive(s);
    AfterReset(s, s', id);
  }

  lemma FailedStartKeepsInv(s: State, id: Wid, claim: ClaimOutcome)
    requires Inv(s) && FreshStart(s, id, claim) && CanStart(s)
    requires !claim.HeartbeatAbandoned? && !claim.Owned?
    ensures Inv(Started(s, id, claim))
  {
    NoneAlive(s);
    assert Publications(s, id) == 0;
    if Claimed(claim).Some? {
      FailedStart(s, Started(s, id, claim), id, Claimed(claim).value);
    } else {
      UnleasedStart(s, Started(s, id, claim), id);
    }
  }

  lemma StartKeepsInv(s: State, id: Wid, claim: ClaimOutcome)
    requires Inv(s) && FreshStart(s, id, claim) && CanStart(s)
    ensures Inv(Started(s, id, claim))
  {
    match claim
    case HeartbeatAbandoned(l) => AbandonedStartKeepsInv(s, id, l);
    case Owned(l) => OwnedStartKeepsInv(s, id, l);
    case _ => FailedStartKeepsInv(s, id, claim);
  }

  lemma AbandonedStartKeepsInv(s: State, id: Wid, l: Lease)
    requires Inv(s) && FreshStart(s, id, HeartbeatAbandoned(l)) && CanStart(s)
    ensures Inv(Started(s, id, HeartbeatAbandoned(l)))
  {
    NoneAlive(s);
  }

  lemma OwnedStartKeepsInv(s: State, id: Wid, l: Option<Lease>)
    requires Inv(s) && FreshStart(s, id, Owned(l)) && CanStart(s)
    ensures Inv(Started(s, id, Owned(l)))
  {
    NoneAlive(s);
  }

  function Cleaned(s: State, id: Wid): State { Reset(TakeLease(WithPublication(s, id), id)).(abandoned := None) }

  lemma CleanupIsReset(s: State, id: Wid)
    requires Inv(s) && s.abandoned == Some(id)
    ensures AbandonedCleaned(s, id) == Cleaned(s, id)
  { }

  lemma CleanedLease(s: State, id: Wid)
    requires LeaseInv(s) && (s.lease.Some? ==> s.current == Some(id))
    ensures LeaseInv(Cleaned(s, id)) && Cleaned(s, id).lease == None
  { }

  lemma CleanupKeepsInv(s: State, id: Wid)
    requires Inv(s) && s.abandoned == Some(id)
    ensures Inv(AbandonedCleaned(s, id))
  {
    CleanupIsReset(s, id);
    CleanedLease(s, id);
    assert s.issued == s.issued + {id};
    AfterReset(s, Cleaned(s, id), id);
  }

  lemma FinishKeepsInv(s: State, id: Wid)
    requires Inv(s) && At(s, id, Stepping)
    ensures Inv(Finishing(s, id))
  { }

  lemma PersistKeepsInv(s: State, id: Wid, saved: bool)
    requires Inv(s) && At(s, id, Persisting)
    ensures Inv(NowAt(s, id, Publishing(saved)))
  { }

  lemma AfterPublication(s: State, s': State, id: Wid)
    requires Inv(s) && Unpublished(s, id) && s.current == Some(id) && s.abandoned == None
    requires s'.phase == s.phase[id := Releasing] && s'.published == s.published[id := 1]
    requires !Busy(s') && s'.finalizing == None && (s'.finalized == s.finalized || s'.finalized == Some(id))
    requires s'.current == s.current && s'.lease == s.lease && s'.thread == s.thread && s'.abandoned == None
    requires s'.issued == s.issued && s'.acquired == s.acquired && s'.released == s.released
    ensures Inv(s')
  { }

  lemma PublishKeepsInv(s: State, id: Wid, saved: bool, final: Status)
    requires Inv(s) && At(s, id, Publishing(saved)) && (final == Completed || final == Failed)
    ensures Inv(Publishes(s, id, saved, final))
  {
    assert Publications(s, id) == 0;
    AfterPublication(s, Publishes(s, id, saved, final), id);
  }

  lemma AfterRelease(s: State, s': State, id: Wid)
    requires Inv(s) && AtRelease(s, id) && s.current == Some(id) && s.abandoned == None
    requires s'.phase == s.phase[id := Leaving] && s'.status == s.status && s'.current == s.current
    requires s'.finalizing == s.finalizing && s'.finalized == s.finalized && s'.thread == s.thread
    requires s'.abandoned == None && s'.issued == s.issued && s'.published == s.published
    requires LeaseInv(s') && s'.lease == None
    ensures Inv(s')
  { }

  lemma ReleaseKeepsInv(s: State, id: Wid)
    requires Inv(s) && At(s, id, Releasing)
    ensures Inv(NowAt(TakeLease(s, id), id, Leaving))
  {
    var s' := NowAt(TakeLease(s, id), id, Leaving);
    assert LeaseInv(s');
    AfterRelease(s, s', id);
  }

  lemma ExitKeepsInv(s: State, id: Wid)
    requires Inv(s) && At(s, id, Leaving)
    ensures Inv(NowAt(s, id, Exited))
  { }

  lemma OpenKeepsInv(s: State, accept: bool)
    requires Inv(s)
    ensures Inv(s.(accepting := accept))
  { }

  lemma StopKeepsInv(s: State)
    requires Inv(s) && Busy(s)
    ensures Inv(s.(stopRequested := true, status := Stopping))
  { }

  lemma StepKeepsInv(s: State, e: Event)
    requires Inv(s)
    ensures Inv(Step(s, e))
  {
    match e
    case Open(accept) => OpenKeepsInv(s, accept);
    case Stop => if Busy(s) { StopKeepsInv(s); }
    case Start(id, claim) =>
      if FreshStart(s, id, claim) && CanStart(s) { StartKeepsInv(s, id, claim); }
    case FinishSteps(id) => if At(s, id, Stepping) { FinishKeepsInv(s, id); }
    case Persist(id, saved) => if At(s, id, Persisting) { PersistKeepsInv(s, id, saved); }
    case Publish(id, saved, final) =>
      if At(s, id, Publishing(saved)) && (final == Completed || final == Failed) { PublishKeepsInv(s, id, saved, final); }
    case ReleaseLease(id) => if At(s, id, Releasing) { ReleaseKeepsInv(s, id); }
    case Exit(id) => if At(s, id, Leaving) { ExitKeepsInv(s, id); }
    case AbandonedCleanup => if s.abandoned.Some? { CleanupKeepsInv(s, s.abandoned.value); }
  }

  lemma {:induction false} InvAlways(s: State, run: seq<Event>)
    requires Inv(s)
    ensures Inv(After(s, run))
    decreases |run|
  {
    if run != [] {
      StepKeepsInv(s, run[0]);
      InvAlways(Step(s, run[0]), run[1..]);
    }
  }

  // ---------- what every run guarantees ----------

  /** At most one worker is alive, whatever start, stop, worker and shutdown do. */
  lemma OneWorker(run: seq<Event>, v: Wid, w: Wid)
    requires Alive(After(INITIAL, run), v) && Alive(After(INITIAL, run), w)
    ensures v == w
  {
    InvAlways(INITIAL, run);
  }

  /** No workflow publishes a final status twice. */
  lemma PublishedOnce(run: seq<Event>)
    ensures forall w :: Publications(After(INITIAL, run), w) <= 1
  {
    InvAlways(INITIAL, run);
  }

  /** Every lease is released at most once and only by the workflow that acquired
      it; once that workflow's worker has gone, or nothing is running or being
      cleaned up, it has been released exactly once. */
  lemma LeasesReleasedOnce(run: seq<Event>, l: Lease)
    requires l in After(INITIAL, run).acquired
    ensures var s := After(INITIAL, run);
            && (ReleasersOf(s, l) == [] || ReleasersOf(s, l) == [s.acquired[l]])
            && (ReleasersOf(s, l) == [] ==> s.lease == Some(l))
            && (s.acquired[l] in s.phase && !Alive(s, s.acquired[l]) ==> ReleasersOf(s, l) == [s.acquired[l]])
            && (s.abandoned.None? && (forall w :: !Alive(s, w)) ==> ReleasersOf(s, l) == [s.acquired[l]])
  {
    InvAlways(INITIAL, run);
  }

  /** The status alone would not do: after publication and before the release the
      status already admits a new workflow while the lease is still held. Only the
      thread check keeps a start out. */
  lemma StatusIsNotTheGuard(id: Wid, l: Lease)
    ensures var s := After(INITIAL, [Start(id, Owned(Some(l))), FinishSteps(id), Persist(id, true), Publish(id, true, Completed)]);
            s.status == Completed && s.accepting && s.lease == Some(l) && !CanStart(s)
  {
    var e1, e2, e3, e4 := Start(id, Owned(Some(l))), FinishSteps(id), Persist(id, true), Publish(id, true, Completed);
    AfterFour(INITIAL, e1, e2, e3, e4);
    var s1 := Step(INITIAL, e1);
    var s2 := Step(s1, e2);
    var s3 := Step(s2, e3);
    assert s3.lease == Some(l) && s3.status == Running;
  }

  /** Whoever has not published yet keeps the status busy. */
  ghost predicate BusyInv(s: State) {
    forall w :: w in s.phase && Unpublished(s, w) ==> Busy(s)
  }

  lemma StepKeepsBusy(s: State, e: Event)
    requires Inv(s) && BusyInv(s)
    ensures BusyInv(Step(s, e))
  {
    match e
    case Open(_) =>
    case Stop =>
    case Start(id, claim) =>
      if FreshStart(s, id, claim) && CanStart(s) { StartKeepsBusy(s, id, claim); }
    case FinishSteps(_) =>
    case Persist(_, _) =>
    case Publish(id, saved, final) =>
      if At(s, id, Publishing(saved)) && (final == Completed || final == Failed) { PublishKeepsBusy(s, id, saved, final); }
    case ReleaseLease(_) =>
    case Exit(_) =>
    case AbandonedCleanup => if s.abandoned.Some? { CleanupKeepsBusy(s, s.abandoned.value); }
  }

  lemma PublishKeepsBusy(s: State, id: Wid, saved: bool, final: Status)
    requires Inv(s) && At(s, id, Publishing(saved)) && (final == Completed || final == Failed)
    ensures BusyInv(Publishes(s, id, saved, final))
  {
    assert Alive(s, id) && s.current == Some(id);
  }

  lemma CleanupKeepsBusy(s: State, id: Wid)
    requires Inv(s) && s.abandoned == Some(id)
    ensures BusyInv(AbandonedCleaned(s, id))
  {
    CleanupIsReset(s, id);
    NobodyAlive(s);
    assert Cleaned(s, id).phase == s.phase;
  }

  lemma NobodyAlive(s: State)
    requires ThreadInv(s) && OwnerInv(s) && s.abandoned.Some?
    ensures forall w :: w in s.phase ==> !Alive(s, w)
  { }

  lemma StartKeepsBusy(s: State, id: Wid, claim: ClaimOutcome)
    requires Inv(s) && FreshStart(s, id, claim) && CanStart(s)
    ensures BusyInv(Started(s, id, claim))
  {
    NoneAlive(s);
  }

  lemma {:induction false} BusyAlways(s: State, run: seq<Event>)
    requires Inv(s) && BusyInv(s)
    ensures Inv(After(s, run)) && BusyInv(After(s, run))
    decreases |run|
  {
    if run != [] {
      StepKeepsInv(s, run[0]);
      StepKeepsBusy(s, run[0]);
      BusyAlways(Step(s, run[0]), run[1..]);
    }
  }

  /** While a lease is held, the status admits a workflow exactly between publication
      and release of the current one; never do status and thread together. */
  lemma StatusAdmitsExactlyAtRelease(run: seq<Event>)
    ensures var s := After(INITIAL, run);
            s.lease.Some? ==> s.current.Some? && (!Busy(s) <==> AtRelease(s, s.current.value)) && !CanStart(s)
  {
    BusyAlways(INITIAL, run);
    if After(INITIAL, run).lease.Some? {
      HeldLease(After(INITIAL, run));
    }
  }

  lemma HeldLease(s: State)
    requires Inv(s) && BusyInv(s) && s.lease.Some?
    ensures s.current.Some? && (!Busy(s) <==> AtRelease(s, s.current.value)) && !CanStart(s)
  {
    if CanStart(s) { NoneAlive(s); }
  }

  lemma AfterFour(s: State, a: Event, b: Event, c: Event, d: Event)
    ensures After(s, [a, b, c, d]) == Step(Step(Step(Step(s, a), b), c), d)
  {
    AfterTwo(s, a, b, [c, d]);
    AfterTwo(Step(Step(s, a), b), c, d, []);
    assert [a, b] + [c, d] == [a, b, c, d] && [c, d] + [] == [c, d];
  }

  lemma AfterTwo(s: State, a: Event, b: Event, rest: seq<Event>)
    ensures After(s, [a, b] + rest) == After(Step(Step(s, a), b), rest)
  {
    assert ([a, b] + rest)[1..] == [b] + rest && ([b] + rest)[1..] == rest;
  }
}
