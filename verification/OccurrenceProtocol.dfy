/** One kind of scheduled task: the evaluator claims occurrences, workers and lost leases
    finish them, and everybody works on three fields under one lock. */
module OccurrenceProtocol {

  import opened Common
  import opened ScheduleTimes

  type Claim = nat

  datatype Run = Run(claim: Claim, entry: Entry, scheduledFor: int)

  /** The scheduler's fields for this kind. */
  datatype Kind = Kind(entry: Entry, nextRun: Option<int>, retry: Option<int>, run: Option<Run>)

  function Next(entry: Entry, now: int): Option<int> {
    match NextRunOf(entry, now) case At(t) => Some(t) case _ => None
  }

  /** The three locked sections after an attempt, and the one of a finished run. */
  function AfterStart(k: Kind, entry: Entry, now: int): Kind {
    if k.run.Some? then k.(nextRun := Next(entry, now)) else k
  }

  function AfterCompleted(k: Kind, entry: Entry, now: int): Kind { k.(retry := None, nextRun := Next(entry, now)) }

  function AfterRefusal(k: Kind, target: int, now: int): Kind { k.(retry := Some(target), nextRun := Some(now + MINUTE)) }

  function AfterFinish(k: Kind, entry: Entry, scheduledFor: int, succeeded: bool, now: int): Kind {
    if k.entry != entry || !entry.enabled then k.(retry := None)
    else if succeeded then AfterCompleted(k, entry, now)
    else AfterRefusal(k, scheduledFor, now)
  }

  function Reconfigured(k: Kind, entry: Entry): Kind {
    if k.entry == entry then k else k.(entry := entry, nextRun := None, retry := None)
  }

  // ---------- the scheduler's fields after a section, one by one ----------

  /** The calendar has moved on to the first run of these settings that is later than `now`. */
  ghost predicate MovedOn(k: Kind, entry: Entry, now: int) {
    forall clocks :: entry.times == Printed(clocks) ==> k.nextRun.Some? && NextFor(entry, clocks, now, k.nextRun.value)
  }

  /** A finished run: a failure is called again a minute later for the time it was scheduled
      for, a success moves the calendar on, and after a change of settings there is only
      nothing more to retry. */
  ghost predicate FinishedAs(k: Kind, k': Kind, entry: Entry, scheduledFor: int, succeeded: bool, now: int) {
    && k'.entry == k.entry && k'.run == k.run
    && (k.entry != entry || !entry.enabled ==> k'.nextRun == k.nextRun && k'.retry == None)
    && (k.entry == entry && entry.enabled && !succeeded ==> k'.nextRun == Some(now + 60_000_000) && k'.retry == Some(scheduledFor))
    && (k.entry == entry && entry.enabled && succeeded ==> k'.retry == None && MovedOn(k', entry, now))
  }

  lemma CompletedMovesOn(k: Kind, entry: Entry, now: int)
    ensures MovedOn(AfterCompleted(k, entry, now), entry, now)
    ensures k.run.Some? ==> MovedOn(AfterStart(k, entry, now), entry, now)
  {
    forall clocks | entry.times == Printed(clocks)
      ensures Next(entry, now).Some? && NextFor(entry, clocks, now, Next(entry, now).value)
    {
      NextRunAfterReference(entry, clocks, now);
    }
  }

  lemma FinishIsExact(k: Kind, entry: Entry, scheduledFor: int, succeeded: bool, now: int)
    ensures FinishedAs(k, AfterFinish(k, entry, scheduledFor, succeeded, now), entry, scheduledFor, succeeded, now)
  {
    CompletedMovesOn(k, entry, now);
  }

  /** Changed settings forget the calendar and the retry, equal ones leave everything. */
  predicate ReconfiguredAs(k: Kind, k': Kind, entry: Entry) {
    && k'.entry == entry && k'.run == k.run
    && (k.entry == entry ==> k'.nextRun == k.nextRun && k'.retry == k.retry)
    && (k.entry != entry ==> k'.nextRun == None && k'.retry == None)
  }

  /** An evaluation keeps a next run that is there and computes a missing one; from that
      instant on it claims the retried time, and the next run where there is none. */
  ghost predicate EvaluatedAs(k: Kind, k': Kind, entry: Entry, now: int, target: Option<int>) {
    && k'.entry == k.entry && k'.run == k.run && k'.retry == k.retry
    && (k.nextRun.Some? ==> k'.nextRun == k.nextRun)
    && (k.nextRun.None? ==> MovedOn(k', entry, now))
    && (target.Some? <==> k'.nextRun.Some? && k'.nextRun.value <= now)
    && (target.Some? ==> target == if k.retry.Some? then k.retry else k'.nextRun)
  }

  lemma EvaluateIsExact(s: State, now: int)
    requires s.evaluator.Copied?
    ensures
      var s' := DoEvaluate(s, now);
      var target := if s'.evaluator.Claiming? then Some(s'.evaluator.target) else None;
      && EvaluatedAs(s.kind, s'.kind, s.evaluator.entry, now, target)
      && (s'.evaluator.Claiming? ==> s'.evaluator.entry == s.evaluator.entry)
      && s'.attempts == if target.Some? then s.attempts + {target.value} else s.attempts
  {
    CompletedMovesOn(s.kind, s.evaluator.entry, now);
  }

  /** Uninterrupted, taking a run, finishing its lease and settling are one finish. */
  lemma FinishInThreeSteps(s: State, succeeded: bool, finalized: bool, now: int)
    requires s.kind.run.Some? && s.kind.run.value.claim !in s.finishing
    ensures
      var run, done := s.kind.run.value, succeeded && finalized;
      var s' := DoSettle(DoFinishLease(DoTake(s, run.claim, succeeded), run.claim, finalized), run.claim, now);
      && FinishedAs(s.kind.(run := None), s'.kind, run.entry, run.scheduledFor, done, now)
      && s'.finishing == s.finishing && FinishCount(s', run.claim) == FinishCount(s, run.claim) + 1
      && s'.evaluator == s.evaluator && s'.attempts == if done then {} else s.attempts
  {
    var run := s.kind.run.value;
    FinishIsExact(s.kind.(run := None), run.entry, run.scheduledFor, succeeded && finalized, now);
  }

  /** A granted claim occupies the run field; what follows an attempt depends on its
      answer, and the evaluation is over. */
  lemma AnswersAreExact(s: State, now: int)
    requires s.evaluator.Claiming?
    ensures
      var g, c := DoGrant(s), s.evaluator;
      && g.kind == s.kind.(run := Some(Run(s.nextClaim, c.entry, c.target))) && g.evaluator == Claimed(s.nextClaim, c.entry, c.target)
      && g.nextClaim == s.nextClaim + 1 && g.finishing == s.finishing && g.attempts == s.attempts
    ensures
      var t := DoUnavailable(s, now);
      && t.kind.nextRun == Some(now + 60_000_000) && t.kind.retry == Some(s.evaluator.target)
      && t.kind.run == s.kind.run && t.kind.entry == s.kind.entry && t.evaluator == Idle && t.attempts == s.attempts
    ensures
      var t := DoAlreadyCompleted(s, now);
      && MovedOn(t.kind, s.evaluator.entry, now) && t.kind.retry == None
      && t.kind.run == s.kind.run && t.kind.entry == s.kind.entry && t.evaluator == Idle && t.attempts == {}
    ensures
      var t := DoStarted(DoGrant(s), now);
      && MovedOn(t.kind, s.evaluator.entry, now) && t.kind.retry == s.kind.retry
      && t.kind.run == DoGrant(s).kind.run && t.kind.entry == s.kind.entry && t.evaluator == Idle && t.attempts == s.attempts
    ensures DoClaimRaised(s).kind == s.kind && DoClaimRaised(s).evaluator == Idle && DoClaimRaised(s).attempts == s.attempts
  {
    CompletedMovesOn(s.kind, s.evaluator.entry, now);
    CompletedMovesOn(DoGrant(s).kind, s.evaluator.entry, now);
  }

  /** A claim whose run is no longer registered, because it could not be started, is called
      again in a minute; one that raised leaves the fields alone. */
  lemma UnstartedIsExact(s: State, now: int)
    requires s.evaluator.Claimed?
    ensures
      var t := DoNotStarted(s, now);
      if s.kind.run.Some? && s.kind.run.value.claim == s.evaluator.claim then t == s
      else
        && t.kind.nextRun == Some(now + 60_000_000) && t.kind.retry == Some(s.evaluator.target)
        && t.kind.run == s.kind.run && t.kind.entry == s.kind.entry && t.evaluator == Idle && t.attempts == s.attempts
    ensures DoStartRaised(s).kind == s.kind && DoStartRaised(s).evaluator == Idle && DoStartRaised(s).attempts == s.attempts
  { }

  /** A change of the settings reaches the fields and ends the occurrence under way, and
      nothing else. */
  lemma ConfigureIsExact(s: State, entry: Entry)
    ensures
      var t := DoConfigure(s, entry);
      && ReconfiguredAs(s.kind, t.kind, entry) && t.evaluator == s.evaluator && t.finishing == s.finishing
      && t.attempts == if entry == s.kind.entry then s.attempts else {}
  { }

  // ---------- the protocol ----------

  /** The evaluation thread: with a copy of the settings, between claiming and the
      answer, or after a granted claim. */
  datatype Evaluator =
    | Idle
    | Copied(entry: Entry)
    | Claiming(entry: Entry, target: int)
    | Claimed(claim: Claim, entry: Entry, target: int)

  /** A run taken out of the field by whoever finishes it; the lease comes next. */
  datatype Finishing = Finishing(entry: Entry, scheduledFor: int, succeeded: bool, leaseDone: bool)

  datatype State = State(
    kind: Kind,
    evaluator: Evaluator,
    finishing: map<Claim, Finishing>,
    nextClaim: Claim,
    /** History: how often each claim's lease was finished, */
    finished: map<Claim, nat>,
    /** and the times claimed since an occurrence last succeeded or was already completed. */
    attempts: set<int>)

  datatype Event =
    | CopyEntry
    | Evaluate(now: int)
    | Grant
    | AlreadyCompleted(now: int)
    | Unavailable(now: int)
    | ClaimRaised
    | Started(now: int)
    | NotStarted(now: int)
    | StartRaised
    | Take(claim: Claim, succeeded: bool)
    | FinishLease(claim: Claim, finalized: bool)
    | Settle(claim: Claim, now: int)
    | Configure(entry: Entry)

  function Initial(entry: Entry): State { State(Kind(entry, None, None, None), Idle, map[], 0, map[], {}) }

  /** `_evaluate_tasks`, first locked section: the settings are copied. */
  function DoCopyEntry(s: State): State {
    if s.evaluator != Idle || !s.kind.entry.enabled then s else s.(evaluator := Copied(s.kind.entry))
  }

  /** Its second one, up to the claim; the settings may have changed since the copy. */
  function DoEvaluate(s: State, now: int): State {
    if !s.evaluator.Copied? then s
    else
      var entry := s.evaluator.entry;
      var next := if s.kind.nextRun.Some? then s.kind.nextRun else Next(entry, now);
      var k := s.kind.(nextRun := next);
      if next.None? || now < next.value then s.(kind := k, evaluator := Idle)
      else
        var target := if k.retry.Some? then k.retry.value else next.value;
        s.(kind := k, evaluator := Claiming(entry, target), attempts := s.attempts + {target})
  }

  /** A granted claim is registered, over whatever run is there. */
  function DoGrant(s: State): State {
    if !s.evaluator.Claiming? then s
    else
      var c := s.nextClaim;
      s.(kind := s.kind.(run := Some(Run(c, s.evaluator.entry, s.evaluator.target))),
         evaluator := Claimed(c, s.evaluator.entry, s.evaluator.target),
         nextClaim := c + 1)
  }

  function DoAlreadyCompleted(s: State, now: int): State {
    if !s.evaluator.Claiming? then s
    else s.(kind := AfterCompleted(s.kind, s.evaluator.entry, now), evaluator := Idle, attempts := {})
  }

  function DoUnavailable(s: State, now: int): State {
    if !s.evaluator.Claiming? then s
    else s.(kind := AfterRefusal(s.kind, s.evaluator.target, now), evaluator := Idle)
  }

  function DoStarted(s: State, now: int): State {
    if !s.evaluator.Claimed? then s
    else s.(kind := AfterStart(s.kind, s.evaluator.entry, now), evaluator := Idle)
  }

  predicate RunsClaim(s: State, c: Claim) { s.kind.run.Some? && s.kind.run.value.claim == c }

  /** Neither lease nor task started: the evaluator has called finish before it gets here. */
  function DoNotStarted(s: State, now: int): State {
    if !s.evaluator.Claimed? || RunsClaim(s, s.evaluator.claim) then s
    else s.(kind := AfterRefusal(s.kind, s.evaluator.target, now), evaluator := Idle)
  }

  function DoStartRaised(s: State): State { if s.evaluator.Claimed? then s.(evaluator := Idle) else s }

  function DoClaimRaised(s: State): State { if s.evaluator.Claiming? then s.(evaluator := Idle) else s }

  /** The first locked section of `_finish_scheduled_occurrence`, whoever calls it. */
  function DoTake(s: State, c: Claim, succeeded: bool): State {
    if !RunsClaim(s, c) then s
    else
      var run := s.kind.run.value;
      s.(kind := s.kind.(run := None), finishing := s.finishing[c := Finishing(run.entry, run.scheduledFor, succeeded, false)])
  }

  function FinishCount(s: State, c: Claim): nat { if c in s.finished then s.finished[c] else 0 }

  function DoFinishLease(s: State, c: Claim, finalized: bool): State {
    if c !in s.finishing || s.finishing[c].leaseDone then s
    else
      var f := s.finishing[c];
      s.(finishing := s.finishing[c := f.(succeeded := f.succeeded && finalized, leaseDone := true)],
         finished := s.finished[c := FinishCount(s, c) + 1])
  }

  /** The second locked section. */
  function DoSettle(s: State, c: Claim, now: int): State {
    if c !in s.finishing || !s.finishing[c].leaseDone then s
    else
      var f := s.finishing[c];
      s.(kind := AfterFinish(s.kind, f.entry, f.scheduledFor, f.succeeded, now),
         finishing := s.finishing - {c},
         attempts := if f.succeeded then {} else s.attempts)
  }

  function DoConfigure(s: State, entry: Entry): State {
    s.(kind := Reconfigured(s.kind, entry), attempts := if s.kind.entry == entry then s.attempts else {})
  }

  function Step(s: State, e: Event): State {
    match e
    case CopyEntry => DoCopyEntry(s)
    case Evaluate(now) => DoEvaluate(s, now)
    case Grant => DoGrant(s)
    case AlreadyCompleted(now) => DoAlreadyCompleted(s, now)
    case Unavailable(now) => DoUnavailable(s, now)
    case ClaimRaised => DoClaimRaised(s)
    case Started(now) => DoStarted(s, now)
    case NotStarted(now) => DoNotStarted(s, now)
    case StartRaised => DoStartRaised(s)
    case Take(c, succeeded) => DoTake(s, c, succeeded)
    case FinishLease(c, finalized) => DoFinishLease(s, c, finalized)
    case Settle(c, now) => DoSettle(s, c, now)
    case Configure(entry) => DoConfigure(s, entry)
  }

  function After(s: State, run: seq<Event>): State
    decreases |run|
  {
    if run == [] then s else After(Step(s, run[0]), run[1..])
  }

  // ---------- each lease is finished at most once ----------

  ghost predicate LeaseInv(s: State) {
    && (s.kind.run.Some? ==> Untouched(s, s.kind.run.value.claim))
    && (forall c :: c in s.finishing ==> c < s.nextClaim && (!s.finishing[c].leaseDone ==> FinishCount(s, c) == 0))
    && (forall c :: c in s.finished ==> c < s.nextClaim && s.finished[c] <= 1)
  }

  /** Granted, and nobody has begun to finish it. */
  ghost predicate Untouched(s: State, c: Claim) {
    c < s.nextClaim && c !in s.finishing && FinishCount(s, c) == 0
  }

  lemma LeaseInvKept(s: State, e: Event)
    requires LeaseInv(s)
    ensures LeaseInv(Step(s, e))
  {
    match e
    case CopyEntry =>
    case Evaluate(_) =>
    case Grant =>
    case AlreadyCompleted(_) =>
    case Unavailable(_) =>
    case ClaimRaised =>
    case Started(_) =>
    case NotStarted(_) =>
    case StartRaised =>
    case Take(_, _) =>
    case FinishLease(_, _) =>
    case Settle(_, _) =>
    case Configure(_) =>
  }

  /** In every interleaving, overlapping runs and changes of settings included, the
      lease of a granted claim is finished at most once. */
  lemma LeaseFinishedOnce(entry: Entry, run: seq<Event>, c: Claim)
    ensures FinishCount(After(Initial(entry), run), c) <= 1
  {
    LeaseInvAlways(Initial(entry), run);
  }

  lemma {:induction false} LeaseInvAlways(s: State, run: seq<Event>)
    requires LeaseInv(s)
    ensures LeaseInv(After(s, run))
    decreases |run|
  {
    if run != [] {
      LeaseInvKept(s, run[0]);
      LeaseInvAlways(Step(s, run[0]), run[1..]);
    }
  }

  // ---------- failed attempts claim the original time again ----------

  /** No evaluation claims while an earlier run is still being worked on or finished,
      and the settings of this kind do not change. */
  predicate Calm(s: State, e: Event) {
    && (e.Evaluate? && s.evaluator.Copied? && DoEvaluate(s, e.now).evaluator.Claiming? ==> s.kind.run.None? && s.finishing == map[])
    && (e.Configure? ==> e.entry == s.kind.entry)
  }

  predicate AllCalm(s: State, run: seq<Event>)
    decreases |run|
  {
    run == [] || (Calm(s, run[0]) && AllCalm(Step(s, run[0]), run[1..]))
  }

  predicate For(entry: Entry, scheduledFor: int, k: Kind, t: int) { entry == k.entry && entry.enabled && scheduledFor == t }

  /** Everything under way concerns the occurrence scheduled for `t`. */
  ghost predicate Concerns(s: State, t: int) {
    && (s.evaluator.Copied? ==> s.evaluator.entry == s.kind.entry && s.kind.entry.enabled)
    && (s.evaluator.Claiming? || s.evaluator.Claimed? ==> For(s.evaluator.entry, s.evaluator.target, s.kind, t))
    && (s.kind.run.Some? ==> For(s.kind.run.value.entry, s.kind.run.value.scheduledFor, s.kind, t))
    && (forall c :: c in s.finishing ==> For(s.finishing[c].entry, s.finishing[c].scheduledFor, s.kind, t))
    && (s.kind.retry.Some? ==> s.kind.retry.value == t)
    && s.attempts <= {t}
  }

  /** The next evaluation that is due claims `t`. */
  predicate Recallable(k: Kind, t: int) { k.retry == Some(t) || (k.retry.None? && k.nextRun == Some(t)) }

  ghost predicate RetryInv(s: State, t: int) {
    && Concerns(s, t)
    && (s.attempts != {} && s.kind.run.None? && s.finishing == map[] ==> Recallable(s.kind, t))
  }

  lemma EvaluateKeepsRetry(s: State, now: int, t: int) returns (t': int)
    requires RetryInv(s, t) && Calm(s, Evaluate(now))
    ensures RetryInv(DoEvaluate(s, now), t')
  {
    var s' := DoEvaluate(s, now);
    t' := if s'.evaluator.Claiming? && s' != s then s'.evaluator.target else t;
    if s.evaluator.Copied? && s'.evaluator.Claiming? && s.attempts != {} {
      assert t' == t;
    }
  }

  lemma SettleKeepsRetry(s: State, c: Claim, now: int, t: int)
    requires RetryInv(s, t)
    ensures RetryInv(DoSettle(s, c, now), t)
  {
    var s' := DoSettle(s, c, now);
    if c in s.finishing && s.finishing[c].leaseDone {
      assert For(s.finishing[c].entry, s.finishing[c].scheduledFor, s.kind, t);
      assert forall d :: d in s'.finishing ==> s'.finishing[d] == s.finishing[d];
    }
  }

  lemma TakeKeepsRetry(s: State, c: Claim, succeeded: bool, t: int)
    requires RetryInv(s, t)
    ensures RetryInv(DoTake(s, c, succeeded), t)
  {
    var s' := DoTake(s, c, succeeded);
    if RunsClaim(s, c) {
      assert c in s'.finishing;
    }
  }

  lemma StepKeepsRetry(s: State, e: Event, t: int) returns (t': int)
    requires RetryInv(s, t) && Calm(s, e)
    ensures RetryInv(Step(s, e), t')
  {
    t' := t;
    match e
    case CopyEntry =>
    case Evaluate(now) => t' := EvaluateKeepsRetry(s, now, t);
    case Grant =>
    case AlreadyCompleted(_) =>
    case Unavailable(_) =>
    case ClaimRaised =>
    case Started(_) =>
    case NotStarted(_) =>
    case StartRaised =>
    case Take(c, succeeded) => TakeKeepsRetry(s, c, succeeded, t);
    case FinishLease(c, finalized) =>
      if c in s.finishing {
        assert c in DoFinishLease(s, c, finalized).finishing;
      }
    case Settle(c, now) => SettleKeepsRetry(s, c, now, t);
    case Configure(_) =>
  }

  lemma {:induction false} RetryInvAlways(s: State, run: seq<Event>, t: int) returns (t': int)
    requires RetryInv(s, t) && AllCalm(s, run)
    ensures RetryInv(After(s, run), t')
    decreases |run|
  {
    t' := t;
    if run != [] {
      t' := StepKeepsRetry(s, run[0], t);
      t' := RetryInvAlways(Step(s, run[0]), run[1..], t');
    }
  }

  /** Between two occurrences that succeed, or turn out to be completed already, all
      attempts claim the time the first of them was scheduled for. */
  lemma AttemptsKeepTheirTime(entry: Entry, run: seq<Event>, a: int, b: int)
    requires AllCalm(Initial(entry), run)
    requires a in After(Initial(entry), run).attempts && b in After(Initial(entry), run).attempts
    ensures a == b
  {
    var t := RetryInvAlways(Initial(entry), run, 0);
  }

  lemma {:induction false} AfterConcat(s: State, first: seq<Event>, second: seq<Event>)
    ensures After(s, first + second) == After(After(s, first), second)
    decreases |first|
  {
    if first == [] {
      assert first + second == second;
    } else {
      assert (first + second)[0] == first[0] && (first + second)[1..] == first[1..] + second;
      AfterConcat(Step(s, first[0]), first[1..], second);
    }
  }

  lemma AfterTwo(s: State, a: Event, b: Event)
    ensures After(s, [a, b]) == Step(Step(s, a), b)
  {
    assert [a, b][1..] == [b] && [b][1..] == [];
    assert After(Step(s, a), [b]) == After(Step(Step(s, a), b), []);
  }

  /** One round of the evaluation thread. */
  function Round(now: int): seq<Event> { [CopyEntry, Evaluate(now)] }

  /** With an overlap they need not: while the first attempt is still running the
      calendar moves on, and the next evaluation claims the next time. */
  lemma OverlapClaimsAnotherTime()
    ensures
      var entry := Entry(true, false, [], Some(1));
      After(Initial(entry), Round(0) + (Round(MINUTE) + ([Grant, Started(MINUTE)] + Round(2 * MINUTE)))).attempts == {MINUTE, 2 * MINUTE}
  {
    var entry := Entry(true, false, [], Some(1));
    var r0, r1, r2, r3 := Round(0), Round(MINUTE), [Grant, Started(MINUTE)], Round(2 * MINUTE);
    var s0 := Initial(entry);
    AfterTwo(s0, CopyEntry, Evaluate(0));
    var s1 := After(s0, r0);
    assert s1.kind.nextRun == Some(MINUTE) && s1.evaluator == Idle;
    AfterTwo(s1, CopyEntry, Evaluate(MINUTE));
    var s2 := After(s1, r1);
    assert s2.attempts == {MINUTE} && s2.evaluator == Claiming(entry, MINUTE);
    AfterTwo(s2, Grant, Started(MINUTE));
    var s3 := After(s2, r2);
    assert s3.kind.nextRun == Some(2 * MINUTE) && s3.evaluator == Idle && s3.attempts == {MINUTE};
    AfterTwo(s3, CopyEntry, Evaluate(2 * MINUTE));
    assert After(s3, r3).attempts == {MINUTE, 2 * MINUTE};
    AfterConcat(s2, r2, r3);
    AfterConcat(s1, r1, r2 + r3);
    AfterConcat(s0, r0, r1 + (r2 + r3));
  }
}
