/** The process-wide lifecycle of the Latest refresh: one admission flag, one
    reservation flag and one thread slot, changed only inside a lock. */
module LatestRefresh {

  import opened Common

  type Worker = nat

  datatype Gate = Gate(accepting: bool, reserved: bool, slot: Option<Worker>)

  /** What Thread.start() does: it hands over (an ordinary error after the native
      start counts as that), or raises before or after the native thread exists. */
  datatype StartFault = HandsOver | FailsBefore | FailsAfter

  function Reserved(g: Gate, refreshing: bool): (Gate, bool) {
    if !g.accepting || g.reserved || refreshing then (g, false) else (g.(reserved := true), true)
  }

  function Released(g: Gate): Gate { g.(reserved := false) }

  predicate Admits(g: Gate) { g.accepting && g.slot.None? }

  function WorkerStarted(g: Gate, w: Worker, fault: StartFault): Gate {
    if !Admits(g) then g
    else if fault.FailsBefore? then Released(g)
    else g.(slot := Some(w))
  }

  function SlotCleared(g: Gate, w: Worker): Gate { if g.slot == Some(w) then g.(slot := None) else g }

  function Opened(g: Gate): Gate { if g.slot.Some? || g.reserved then g else g.(accepting := true) }

  function Closed(g: Gate): Gate { g.(accepting := false) }

  /** The module globals and the critical sections over them. */
  class Lifecycle {
    var accepting: bool
    var reserved: bool
    var thread: Option<Worker>

    function Current(): Gate
      reads this
    {
      Gate(accepting, reserved, thread)
    }

    constructor ()
      ensures Current() == Gate(true, false, None)
    {
      accepting, reserved, thread := true, false, None;
    }

    method Reserve(refreshing: bool) returns (ok: bool)
      modifies this
      ensures (Current(), ok) == Reserved(old(Current()), refreshing)
      ensures ok <==> old(accepting && !reserved) && !refreshing
      ensures accepting == old(accepting) && thread == old(thread) && (reserved <==> old(reserved) || ok)
    {
      if !accepting || reserved || refreshing { return false; }
      reserved := true;
      ok := true;
    }

    method Release()
      modifies this
      ensures Current() == Released(old(Current()))
      ensures !reserved && accepting == old(accepting) && thread == old(thread)
    {
      reserved := false;
    }

    /** Publication and Thread.start in one critical section. `raised` is what the
        caller of the section sees besides the returned flag. */
    method StartWorker(w: Worker, fault: StartFault) returns (started: bool, raised: bool)
      modifies this
      ensures Current() == WorkerStarted(old(Current()), w, fault)
      ensures started <==> Admits(old(Current())) && fault.HandsOver?
      ensures raised <==> Admits(old(Current())) && !fault.HandsOver?
      ensures started || raised <==> old(accepting && thread.None?)
      ensures accepting == old(accepting)
      ensures (raised && fault.FailsBefore? ==> thread == None && !reserved)
      ensures started || (raised && fault.FailsAfter?) ==> thread == Some(w) && reserved == old(reserved)
      ensures !started && !raised ==> thread == old(thread) && reserved == old(reserved)
    {
      if !accepting || thread.Some? { return false, false; }
      thread := Some(w);
      match fault
      case HandsOver => return true, false;
      case FailsAfter => return false, true;
      case FailsBefore =>
        if thread == Some(w) { thread := None; }
        Release();
        return false, true;
    }

    method ClearSlot(w: Worker)
      modifies this
      ensures Current() == SlotCleared(old(Current()), w)
      ensures thread == (if old(thread) == Some(w) then None else old(thread)) && accepting == old(accepting) && reserved == old(reserved)
    {
      if thread == Some(w) { thread := None; }
    }

    method StartAccepting() returns (admitted: bool)
      modifies this
      ensures Current() == Opened(old(Current()))
      ensures admitted <==> old(Current()).slot.None? && !old(Current()).reserved
      ensures (accepting <==> old(accepting) || admitted) && reserved == old(reserved) && thread == old(thread)
    {
      if thread.Some? || reserved { return false; }
      accepting := true;
      admitted := true;
    }

    method BeginShutdown()
      modifies this
      ensures Current() == Closed(old(Current()))
      ensures !accepting && reserved == old(reserved) && thread == old(thread)
    {
      accepting := false;
    }
  }

  // ---------- requests, workers and shutdowns over the gate ----------

  type Req = nat
  type Call = nat

  datatype ReqPhase = Holding | Ready | MustRelease | Answered

  datatype WorkerPhase = Targeting | Clearing | Unreserving | Gone

  /** `epoch` counts how often admission had been reopened when shutdown began. */
  datatype ShutdownPhase =
    | Waiting(epoch: nat)
    | Joining(epoch: nat, worker: Worker)
    | ReturnedTrue(epoch: nat)
    | ReturnedFalse

  datatype State = State(
    gate: Gate,
    requests: map<Req, ReqPhase>,
    workers: map<Worker, WorkerPhase>,
    shutdowns: map<Call, ShutdownPhase>,
    reopened: nat)

  datatype Event =
    | Reserve(r: Req, refreshing: bool)
    | StartOperation(r: Req, recorded: bool)
    | Start(r: Req, w: Worker, fault: StartFault)
    | ReleaseByRequest(r: Req)
    | TargetEnds(w: Worker)
    | ClearSlot(w: Worker)
    | Unreserve(w: Worker)
    | Open
    | Close
    | BeginShutdown(c: Call)
    | Look(c: Call, timedOut: bool)
    | Join(c: Call)

  predicate ReqAt(s: State, r: Req, p: ReqPhase) { r in s.requests && s.requests[r] == p }

  predicate WorkerAt(s: State, w: Worker, p: WorkerPhase) { w in s.workers && s.workers[w] == p }

  function Started(s: State, r: Req, w: Worker, fault: StartFault): State {
    var handed := Admits(s.gate) && !fault.FailsBefore?;
    s.(gate := WorkerStarted(s.gate, w, fault),
       workers := if handed then s.workers[w := Targeting] else s.workers,
       requests := s.requests[r := if handed && fault.HandsOver? then Answered else MustRelease])
  }

  function Looked(s: State, c: Call, epoch: nat, timedOut: bool): State {
    if s.gate.reserved && s.gate.slot.None? then
      if timedOut then s.(shutdowns := s.shutdowns[c := ReturnedFalse]) else s
    else if s.gate.slot.None? then s.(shutdowns := s.shutdowns[c := ReturnedTrue(epoch)])
    else s.(shutdowns := s.shutdowns[c := Joining(epoch, s.gate.slot.value)])
  }

  /** An event that cannot happen in a state leaves it as it is. */
  function Step(s: State, e: Event): State {
    match e
    case Reserve(r, refreshing) =>
      if r in s.requests || !Reserved(s.gate, refreshing).1 then s
      else s.(gate := Reserved(s.gate, refreshing).0, requests := s.requests[r := Holding])
    case StartOperation(r, recorded) =>
      if !ReqAt(s, r, Holding) then s
      else if recorded then s.(requests := s.requests[r := Ready])
      else s.(gate := Released(s.gate), requests := s.requests[r := Answered])
    case Start(r, w, fault) => if ReqAt(s, r, Ready) && w !in s.workers then Started(s, r, w, fault) else s
    case ReleaseByRequest(r) =>
      if ReqAt(s, r, MustRelease) then s.(gate := Released(s.gate), requests := s.requests[r := Answered]) else s
    case TargetEnds(w) => if WorkerAt(s, w, Targeting) then s.(workers := s.workers[w := Clearing]) else s
    case ClearSlot(w) =>
      if WorkerAt(s, w, Clearing) then s.(gate := SlotCleared(s.gate, w), workers := s.workers[w := Unreserving]) else s
    case Unreserve(w) =>
      if WorkerAt(s, w, Unreserving) then s.(gate := Released(s.gate), workers := s.workers[w := Gone]) else s
    case Open =>
      if s.gate.slot.Some? || s.gate.reserved then s else s.(gate := Opened(s.gate), reopened := s.reopened + 1)
    case Close => s.(gate := Closed(s.gate))
    case BeginShutdown(c) =>
      if c in s.shutdowns then s
      else s.(gate := Closed(s.gate), shutdowns := s.shutdowns[c := Waiting(s.reopened)])
    case Look(c, timedOut) =>
      if c in s.shutdowns && s.shutdowns[c].Waiting? then Looked(s, c, s.shutdowns[c].epoch, timedOut) else s
    case Join(c) =>
      if !(c in s.shutdowns && s.shutdowns[c].Joining?) then s
      else if WorkerAt(s, s.shutdowns[c].worker, Gone)
      then s.(shutdowns := s.shutdowns[c := ReturnedTrue(s.shutdowns[c].epoch)])
      else s.(shutdowns := s.shutdowns[c := ReturnedFalse])
  }

  const INITIAL := State(Gate(true, false, None), map[], map[], map[], 0)

  function After(s: State, run: seq<Event>): State
    decreases |run|
  {
    if run == [] then s else After(Step(s, run[0]), run[1..])
  }

  // ---------- undisturbed refreshes and shutdowns ----------

  function AfterReserve(s: State, r: Req): State { Step(Step(s, Reserve(r, false)), StartOperation(r, true)) }

  function AfterTarget(s: State, w: Worker): State { Step(Step(Step(s, TargetEnds(w)), ClearSlot(w)), Unreserve(w)) }

  /** On an open, free gate a refresh goes through: its worker takes the slot and, when its
      target is done, gives back the slot and the reservation. */
  lemma RefreshGoesThrough(s: State, r: Req, w: Worker)
    requires s.gate == Gate(true, false, None) && r !in s.requests && w !in s.workers
    ensures AfterReserve(s, r).gate == Gate(true, true, None) && ReqAt(AfterReserve(s, r), r, Ready)
    ensures
      var running := Step(AfterReserve(s, r), Start(r, w, HandsOver));
      && running.gate == Gate(true, true, Some(w)) && ReqAt(running, r, Answered) && WorkerAt(running, w, Targeting)
      && var done := AfterTarget(running, w);
         done.gate == Gate(true, false, None) && WorkerAt(done, w, Gone) && ReqAt(done, r, Answered)
  { }

  /** Where the thread cannot be started, the request gives the reservation back itself. */
  lemma RefusedStartIsUndone(s: State, r: Req, w: Worker)
    requires ReqAt(s, r, Ready) && w !in s.workers
    ensures
      var t := Step(Step(s, Start(r, w, FailsBefore)), ReleaseByRequest(r));
      && !t.gate.reserved && t.gate.accepting == s.gate.accepting && t.gate.slot == s.gate.slot
      && ReqAt(t, r, Answered) && t.workers == s.workers
  { }

  /** While the gate is closed, reserved or refreshing, nobody gets the reservation. */
  lemma ReservedOnlyWhenFree(s: State, r: Req, refreshing: bool)
    requires r !in s.requests
    ensures (Step(s, Reserve(r, refreshing)) != s) <==> s.gate.accepting && !s.gate.reserved && !refreshing
  { }

  /** Admission reopens, and is counted, exactly when nothing is reserved or in the slot. */
  lemma OpensOnlyWhenQuiet(s: State)
    ensures
      if !s.gate.reserved && s.gate.slot.None?
      then Step(s, Open) == s.(gate := Gate(true, false, None), reopened := s.reopened + 1) else Step(s, Open) == s
  { }

  /** A shutdown closes admission; it is done when nothing is reserved or running, gives up
      on a reservation that stays, and otherwise answers whether the thread it found ended. */
  lemma ShutdownAnswers(s: State, c: Call, timedOut: bool)
    requires c !in s.shutdowns
    ensures
      var begun := Step(s, BeginShutdown(c));
      var looked := Step(begun, Look(c, timedOut));
      var joined := Step(looked, Join(c));
      && begun.gate == s.gate.(accepting := false) && looked.gate == begun.gate && joined.gate == begun.gate
      && (s.gate.slot.None? && !s.gate.reserved ==> looked.shutdowns[c].ReturnedTrue?)
      && (s.gate.slot.None? && s.gate.reserved && timedOut ==> looked.shutdowns[c].ReturnedFalse?)
      && (s.gate.slot.None? && s.gate.reserved && !timedOut ==> looked == begun)
      && (s.gate.slot.Some? ==>
            (joined.shutdowns[c].ReturnedTrue? <==> WorkerAt(s, s.gate.slot.value, Gone))
            && (joined.shutdowns[c].ReturnedFalse? <==> !WorkerAt(s, s.gate.slot.value, Gone)))
  { }

  // ---------- the invariant ----------

  /** A worker that may still run its target, or has not left the slot yet. */
  predicate InSlotPhase(s: State, w: Worker) { WorkerAt(s, w, Targeting) || WorkerAt(s, w, Clearing) }

  ghost predicate SlotInv(s: State) {
    && (forall w :: w in s.workers && InSlotPhase(s, w) ==> s.gate.slot == Some(w))
    && (s.gate.slot.Some? ==> InSlotPhase(s, s.gate.slot.value))
  }

  predicate ShutdownHolds(s: State, p: ShutdownPhase) {
    match p
    case Waiting(epoch) => epoch <= s.reopened && (epoch == s.reopened ==> !s.gate.accepting)
    case Joining(epoch, w) =>
      && w in s.workers && epoch <= s.reopened
      && (epoch == s.reopened ==> !s.gate.accepting && (s.gate.slot.None? || s.gate.slot == Some(w)))
    case ReturnedTrue(epoch) =>
      epoch <= s.reopened && (epoch == s.reopened ==> !s.gate.accepting && s.gate.slot.None?)
    case ReturnedFalse => true
  }

  ghost predicate ShutdownInv(s: State) {
    forall c :: c in s.shutdowns ==> ShutdownHolds(s, s.shutdowns[c])
  }

  predicate Busy(s: State, r: Req) { r in s.requests && s.requests[r] != Answered }

  predicate Leaving(s: State, w: Worker) { w in s.workers && s.workers[w] != Gone }

  /** A reservation always has somebody who is going to give it back. */
  ghost predicate ReservationInv(s: State) {
    s.gate.reserved ==> (exists r :: Busy(s, r)) || (exists w :: Leaving(s, w))
  }

  ghost predicate Inv(s: State) { SlotInv(s) && ShutdownInv(s) && ReservationInv(s) }

  lemma StepKeepsSlot(s: State, e: Event)
    requires Inv(s)
    ensures SlotInv(Step(s, e))
  { }

  lemma StepKeepsShutdowns(s: State, e: Event)
    requires Inv(s)
    ensures ShutdownInv(Step(s, e))
  {
    var s' := Step(s, e);
    forall c | c in s'.shutdowns ensures ShutdownHolds(s', s'.shutdowns[c]) {
      if c in s.shutdowns { assert ShutdownHolds(s, s.shutdowns[c]); }
    }
  }

  lemma StepKeepsReservation(s: State, e: Event)
    requires Inv(s)
    ensures ReservationInv(Step(s, e))
  {
    var s' := Step(s, e);
    if s'.gate.reserved {
      if s.gate.reserved {
        if r :| Busy(s, r) {
          if !Busy(s', r) { assert e.Start? && Leaving(s', e.w); }
        } else {
          var w :| Leaving(s, w);
          assert Leaving(s', w);
        }
      } else {
        assert Busy(s', e.r);
      }
    }
  }

  lemma {:induction false} InvAlways(s: State, run: seq<Event>)
    requires Inv(s)
    ensures Inv(After(s, run))
    decreases |run|
  {
    if run != [] {
      StepKeepsSlot(s, run[0]);
      StepKeepsShutdowns(s, run[0]);
      StepKeepsReservation(s, run[0]);
      InvAlways(Step(s, run[0]), run[1..]);
    }
  }

  // ---------- what every run guarantees ----------

  /** At most one refresh target runs at a time. */
  lemma OneTarget(run: seq<Event>, v: Worker, w: Worker)
    requires WorkerAt(After(INITIAL, run), v, Targeting) && WorkerAt(After(INITIAL, run), w, Targeting)
    ensures v == w
  {
    InvAlways(INITIAL, run);
  }

  /** Once shutdown has returned True, nothing runs and nothing can start, in this
      state and every later one, until admission is reopened. */
  lemma ShutdownIsFinal(run: seq<Event>, c: Call)
    requires var s := After(INITIAL, run);
             c in s.shutdowns && s.shutdowns[c].ReturnedTrue? && s.shutdowns[c].epoch == s.reopened
    ensures var s := After(INITIAL, run);
            && (forall w :: !WorkerAt(s, w, Targeting))
            && !Admits(s.gate)
            && (forall r, v, fault :: Step(s, Start(r, v, fault)).workers == s.workers)
  {
    InvAlways(INITIAL, run);
    assert ShutdownHolds(After(INITIAL, run), After(INITIAL, run).shutdowns[c]);
  }

  /** When every request is answered and every worker is gone, the reservation is
      free again: no fault sequence can leave the refresh permanently blocked. */
  lemma QuiescenceFreesReservation(run: seq<Event>)
    requires var s := After(INITIAL, run); (forall r :: !Busy(s, r)) && (forall w :: !Leaving(s, w))
    ensures !After(INITIAL, run).gate.reserved && After(INITIAL, run).gate.slot.None?
  {
    InvAlways(INITIAL, run);
    var s := After(INITIAL, run);
    if s.gate.slot.Some? { assert Leaving(s, s.gate.slot.value); }
  }

  /** The reservation flag alone does not exclude: a start that fails before the
      native thread releases it twice, and the second release hits the reservation
      of another request, so that two requests hold it at once. */
  lemma ReservationIsNotExclusive()
    ensures var s := After(INITIAL, [Reserve(1, false), StartOperation(1, true), Start(1, 1, FailsBefore)]
                                    + [Reserve(2, false), ReleaseByRequest(1), Reserve(3, false)]);
            ReqAt(s, 2, Holding) && ReqAt(s, 3, Holding)
  {
    var s1 := State(Gate(true, true, None), map[1 := Holding], map[], map[], 0);
    var s2 := s1.(requests := map[1 := Ready]);
    var s3 := State(Gate(true, false, None), map[1 := MustRelease], map[], map[], 0);
    Three(INITIAL, Reserve(1, false), StartOperation(1, true), Start(1, 1, FailsBefore), s1, s2, s3);
    var s4 := State(Gate(true, true, None), map[1 := MustRelease, 2 := Holding], map[], map[], 0);
    var s5 := State(Gate(true, false, None), map[1 := Answered, 2 := Holding], map[], map[], 0);
    var s6 := State(Gate(true, true, None), map[1 := Answered, 2 := Holding, 3 := Holding], map[], map[], 0);
    Three(s3, Reserve(2, false), ReleaseByRequest(1), Reserve(3, false), s4, s5, s6);
    AfterConcat(INITIAL, [Reserve(1, false), StartOperation(1, true), Start(1, 1, FailsBefore)],
                [Reserve(2, false), ReleaseByRequest(1), Reserve(3, false)]);
  }

  // ---------- exactly when the reservation excludes ----------

  /** Who is going to give the reservation back. */
  datatype Holder = ByRequest(r: Req) | ByWorker(w: Worker)

  predicate Holds(s: State, h: Holder) {
    match h
    case ByRequest(r) => Busy(s, r)
    case ByWorker(w) => Leaving(s, w)
  }

  /** At most one request or worker does, and then the flag is set. */
  ghost predicate Exclusive(s: State) {
    && (forall g, h :: Holds(s, g) && Holds(s, h) ==> g == h)
    && (forall h :: Holds(s, h) ==> s.gate.reserved)
  }

  /** An admitted start that raises, before or after the native thread exists. */
  predicate Raises(s: State, e: Event) {
    e.Start? && ReqAt(s, e.r, Ready) && e.w !in s.workers && Admits(s.gate) && !e.fault.HandsOver?
  }

  predicate NoneRaises(s: State, run: seq<Event>)
    decreases |run|
  {
    run == [] || (!Raises(s, run[0]) && NoneRaises(Step(s, run[0]), run[1..]))
  }

  lemma StepKeepsExclusive(s: State, e: Event)
    requires Exclusive(s) && !Raises(s, e)
    ensures Exclusive(Step(s, e))
  {
    var s' := Step(s, e);
    forall h | Holds(s', h) ensures s'.gate.reserved {
      HolderBefore(s, e, h);
    }
    forall g, h | Holds(s', g) && Holds(s', h) ensures g == h {
      HolderBefore(s, e, g);
      HolderBefore(s, e, h);
    }
  }

  /** A holder was one before, or took over from the only one, or found none. */
  lemma HolderBefore(s: State, e: Event, h: Holder)
    requires Exclusive(s) && !Raises(s, e) && Holds(Step(s, e), h)
    ensures Step(s, e).gate.reserved
    ensures Holds(s, h)
         || (e.Reserve? && h == ByRequest(e.r) && forall g :: !Holds(s, g))
         || (e.Start? && h == ByWorker(e.w) && Holds(s, ByRequest(e.r)) && !Holds(Step(s, e), ByRequest(e.r)))
  {
    match e
    case Reserve(r, _) =>
      if !Holds(s, h) { assert !s.gate.reserved; }
    case StartOperation(r, _) =>
      assert Holds(s, h);
      if ReqAt(s, r, Holding) { assert Holds(s, ByRequest(r)); }
    case Start(r, w, _) =>
      if ReqAt(s, r, Ready) { assert Holds(s, ByRequest(r)); }
    case ReleaseByRequest(r) =>
      assert Holds(s, h);
      if ReqAt(s, r, MustRelease) { assert Holds(s, ByRequest(r)); }
    case Unreserve(w) =>
      assert Holds(s, h);
      if WorkerAt(s, w, Unreserving) { assert Holds(s, ByWorker(w)); }
    case _ => assert Holds(s, h);
  }

  lemma {:induction false} ExclusiveAlways(s: State, run: seq<Event>)
    requires Exclusive(s) && NoneRaises(s, run)
    ensures Exclusive(After(s, run))
    decreases |run|
  {
    if run != [] {
      StepKeepsExclusive(s, run[0]);
      ExclusiveAlways(Step(s, run[0]), run[1..]);
    }
  }

  /** Two requests hold the reservation that each has obtained for itself alone. */
  ghost predicate HeldTwice(s: State) {
    exists q, r :: q != r && ReqAt(s, q, Holding) && ReqAt(s, r, Holding)
  }

  predicate StartFree(run: seq<Event>) { forall i :: 0 <= i < |run| ==> !run[i].Start? }

  lemma {:induction false} StartFreeRaisesNothing(s: State, run: seq<Event>)
    requires StartFree(run)
    ensures NoneRaises(s, run)
    decreases |run|
  {
    if run != [] {
      assert !run[0].Start?;
      StartFreeRaisesNothing(Step(s, run[0]), run[1..]);
    }
  }

  /** Two requests not seen before. */
  lemma TwoFresh(s: State) returns (q: Req, r: Req)
    ensures q != r && q !in s.requests && r !in s.requests
  {
    q := Above(s.requests.Keys);
    r := q + 1;
  }

  lemma Above(used: set<Req>) returns (bound: Req)
    ensures forall r :: r in used ==> r < bound
    decreases |used|
  {
    bound := 0;
    if used != {} {
      var r :| r in used;
      var rest := Above(used - {r});
      assert forall q :: q in used ==> q == r || q in used - {r};
      bound := if rest > r then rest else r + 1;
    }
  }

  /** A start that fails before the native thread has already rolled the reservation
      back; the next request takes it, and the failed one gives it back once more. */
  lemma RollbackThenRelease(s: State, r: Req, q: Req, p: Req)
    requires ReqAt(s, r, MustRelease) && s.gate == Gate(true, false, None)
    requires q !in s.requests && p !in s.requests && q != p
    ensures HeldTwice(After(s, [Reserve(q, false), ReleaseByRequest(r), Reserve(p, false)]))
  {
    var s1 := Step(s, Reserve(q, false));
    var s2 := Step(s1, ReleaseByRequest(r));
    var s3 := Step(s2, Reserve(p, false));
    Three(s, Reserve(q, false), ReleaseByRequest(r), Reserve(p, false), s1, s2, s3);
    assert ReqAt(s3, q, Holding) && ReqAt(s3, p, Holding);
  }

  /** A start that fails after it leaves a worker that releases once more when its
      target has ended. */
  lemma ReleaseThenUnreserve(s: State, r: Req, w: Worker, q: Req, p: Req)
    requires ReqAt(s, r, MustRelease) && WorkerAt(s, w, Targeting) && s.gate.accepting && s.gate.slot == Some(w)
    requires q !in s.requests && p !in s.requests && q != p
    ensures HeldTwice(After(s, [ReleaseByRequest(r), TargetEnds(w), Reserve(q, false)] + [ClearSlot(w), Unreserve(w), Reserve(p, false)]))
  {
    var s1 := Step(s, ReleaseByRequest(r));
    var s2 := Step(s1, TargetEnds(w));
    var s3 := Step(s2, Reserve(q, false));
    Three(s, ReleaseByRequest(r), TargetEnds(w), Reserve(q, false), s1, s2, s3);
    assert ReqAt(s3, q, Holding) && WorkerAt(s3, w, Clearing);
    var s4 := Step(s3, ClearSlot(w));
    var s5 := Step(s4, Unreserve(w));
    var s6 := Step(s5, Reserve(p, false));
    Three(s3, ClearSlot(w), Unreserve(w), Reserve(p, false), s4, s5, s6);
    assert ReqAt(s6, q, Holding) && ReqAt(s6, p, Holding);
    AfterConcat(s, [ReleaseByRequest(r), TargetEnds(w), Reserve(q, false)], [ClearSlot(w), Unreserve(w), Reserve(p, false)]);
  }

  /** After a start that raises, requests and workers alone bring two holders about. */
  lemma RaisingBreaks(s: State, e: Event) returns (run: seq<Event>)
    requires Raises(s, e)
    ensures StartFree(run) && HeldTwice(After(Step(s, e), run))
  {
    var s' := Step(s, e);
    var q, p := TwoFresh(s');
    if e.fault.FailsBefore? {
      run := [Reserve(q, false), ReleaseByRequest(e.r), Reserve(p, false)];
      RollbackThenRelease(s', e.r, q, p);
    } else {
      run := [ReleaseByRequest(e.r), TargetEnds(e.w), Reserve(q, false)] + [ClearSlot(e.w), Unreserve(e.w), Reserve(p, false)];
      ReleaseThenUnreserve(s', e.r, e.w, q, p);
    }
  }

  /** Whatever happens after the event, as long as no admitted start raises, nobody else
      holds the reservation of a request. */
  ghost predicate ExcludesFromHere(s: State) {
    forall run | NoneRaises(s, run) :: !HeldTwice(After(s, run))
  }

  /** The reservation excludes as long as every admitted start hands over to its
      thread, and an admitted start that raises ends that. */
  lemma ReservationExcludesExactly(s: State, e: Event)
    requires Exclusive(s)
    ensures ExcludesFromHere(Step(s, e)) <==> !Raises(s, e)
  {
    if Raises(s, e) {
      var run := RaisingBreaks(s, e);
      StartFreeRaisesNothing(Step(s, e), run);
    } else {
      StepKeepsExclusive(s, e);
      forall run | NoneRaises(Step(s, e), run) ensures !HeldTwice(After(Step(s, e), run)) {
        ExclusiveAlways(Step(s, e), run);
        OneHolding(After(Step(s, e), run));
      }
    }
  }

  lemma OneHolding(s: State)
    requires Exclusive(s)
    ensures !HeldTwice(s)
  {
    forall q, r | ReqAt(s, q, Holding) && ReqAt(s, r, Holding) ensures q == r {
      assert Holds(s, ByRequest(q)) && Holds(s, ByRequest(r));
    }
  }

  /** From the start: at most one request or worker holds the reservation in every run
      in which no admitted start raises. */
  lemma ReservationIsExclusive(run: seq<Event>)
    requires NoneRaises(INITIAL, run)
    ensures Exclusive(After(INITIAL, run))
  {
    ExclusiveAlways(INITIAL, run);
  }

  lemma Three(s: State, a: Event, b: Event, c: Event, s1: State, s2: State, s3: State)
    requires Step(s, a) == s1 && Step(s1, b) == s2 && Step(s2, c) == s3
    ensures After(s, [a, b, c]) == s3
  {
    assert After(s3, []) == s3;
    assert [c][1..] == [] && [b, c][1..] == [c] && [a, b, c][1..] == [b, c];
    assert After(s2, [c]) == s3;
    assert After(s1, [b, c]) == s3;
  }

  lemma {:induction false} AfterConcat(s: State, first: seq<Event>, second: seq<Event>)
    ensures After(s, first + second) == After(After(s, first), second)
    decreases |first|
  {
    if first == [] {
      assert first + second == second;
    } else {
      AfterConcat(Step(s, first[0]), first[1..], second);
      assert (first + second)[1..] == first[1..] + second;
    }
  }
}
