/** The scheduler's fields and the methods that change them, one lock section at a time. */
module AutoScheduling {

  import opened Common
  import opened OccurrenceProtocol
  import opened ScheduleTimes

  type KindName = string

  /** What claiming and starting an occurrence came to. */
  datatype Outcome = StartedOutcome | ConsumedOutcome | RetryOutcome

  function Lookup<T>(m: map<KindName, T>, kind: KindName): Option<T> { if kind in m then Some(m[kind]) else None }

  class AutoScheduler {
    var settings: map<KindName, Entry>
    var nextRun: map<KindName, int>
    var retries: map<KindName, int>
    var runs: map<KindName, Run>
    /** Claims whose lease was finished, in order. */
    var leasesFinished: seq<Claim>

    constructor (settings: map<KindName, Entry>)
      ensures this.settings == settings
      ensures forall kind :: kind in settings ==> View(kind) == Kind(settings[kind], None, None, None)
      ensures leasesFinished == []
    {
      this.settings, nextRun, retries, runs, leasesFinished := settings, map[], map[], map[], [];
    }

    /** The fields of one kind together. */
    function View(kind: KindName): Kind
      requires kind in settings
      reads this
    {
      Kind(settings[kind], Lookup(nextRun, kind), Lookup(retries, kind), Lookup(runs, kind))
    }

    /** No other kind changes. */
    twostate predicate OnlyKind(kind: KindName) reads this {
      settings.Keys == old(settings.Keys) && forall other :: other in settings && other != kind ==> View(other) == old(View(other))
    }

    method SetNext(kind: KindName, t: Option<int>)
      requires kind in settings
      modifies `nextRun
      ensures View(kind) == old(View(kind)).(nextRun := t) && OnlyKind(kind)
    {
      if t.Some? {
        nextRun := nextRun[kind := t.value];
      } else {
        nextRun := nextRun - {kind};
      }
    }

    method SetRetry(kind: KindName, t: Option<int>)
      requires kind in settings
      modifies `retries
      ensures View(kind) == old(View(kind)).(retry := t) && OnlyKind(kind)
    {
      if t.Some? {
        retries := retries[kind := t.value];
      } else {
        retries := retries - {kind};
      }
    }

    /** The part of `update_config` for one kind. */
    method UpdateKind(kind: KindName, entry: Entry)
      requires kind in settings
      modifies this
      ensures kind in settings && View(kind) == Reconfigured(old(View(kind)), entry) && OnlyKind(kind)
      ensures ReconfiguredAs(old(View(kind)), View(kind), entry)
      ensures leasesFinished == old(leasesFinished)
    {
      if settings[kind] != entry {
        settings := settings[kind := entry];
        nextRun, retries := nextRun - {kind}, retries - {kind};
      }
    }

    /** `_register_scheduled_occurrence` */
    method Register(kind: KindName, claim: Claim, entry: Entry, target: int)
      requires kind in settings
      modifies `runs
      ensures View(kind) == old(View(kind)).(run := Some(Run(claim, entry, target))) && OnlyKind(kind)
    {
      runs := runs[kind := Run(claim, entry, target)];
    }

    /** `_finish_scheduled_occurrence`: take the run, finish its lease, settle. `finalized`
        is the lease's answer, false when it raises. */
    method Finish(kind: KindName, claim: Claim, entry: Entry, scheduledFor: int, succeeded: bool, finalized: bool, now: int)
      requires kind in settings
      modifies this
      ensures kind in settings && settings == old(settings) && OnlyKind(kind)
      ensures
        if old(kind in runs && runs[kind].claim == claim) then
          && View(kind) == AfterFinish(old(View(kind)).(run := None), entry, scheduledFor, succeeded && finalized, now)
          && FinishedAs(old(View(kind)).(run := None), View(kind), entry, scheduledFor, succeeded && finalized, now)
          && leasesFinished == old(leasesFinished) + [claim]
        else
          View(kind) == old(View(kind)) && leasesFinished == old(leasesFinished)
    {
      FinishIsExact(View(kind).(run := None), entry, scheduledFor, succeeded && finalized, now);
      if kind !in runs || runs[kind].claim != claim {
        return;
      }
      runs := runs - {kind};
      leasesFinished := leasesFinished + [claim];
      var finallySucceeded := succeeded && finalized;
      if settings[kind] != entry || !entry.enabled {
        SetRetry(kind, None);
      } else if finallySucceeded {
        SetRetry(kind, None);
        SetNext(kind, Next(entry, now));
      } else {
        SetRetry(kind, Some(scheduledFor));
        SetNext(kind, Some(now + MINUTE));
      }
    }

    /** `_lose_scheduled_occurrence`: the run's own entry and time, as a failure. */
    method Lose(kind: KindName, claim: Claim, finalized: bool, now: int)
      requires kind in settings
      modifies this
      ensures kind in settings && settings == old(settings) && OnlyKind(kind)
      ensures
        if old(kind in runs && runs[kind].claim == claim) then
          && View(kind) == AfterFinish(old(View(kind)).(run := None), old(runs[kind].entry), old(runs[kind].scheduledFor), false, now)
          && FinishedAs(old(View(kind)).(run := None), View(kind), old(runs[kind].entry), old(runs[kind].scheduledFor), false, now)
          && leasesFinished == old(leasesFinished) + [claim]
        else
          View(kind) == old(View(kind)) && leasesFinished == old(leasesFinished)
    {
      if kind in runs && runs[kind].claim == claim {
        Finish(kind, claim, runs[kind].entry, runs[kind].scheduledFor, false, finalized, now);
      }
    }

    /** `_evaluate_tasks` for one kind, first locked section: the settings it works with. */
    method CopyEntry(kind: KindName) returns (entry: Option<Entry>)
      requires kind in settings
      ensures
        var evaluator := DoCopyEntry(State(View(kind), Idle, map[], 0, map[], {})).evaluator;
        entry == if evaluator.Copied? then Some(evaluator.entry) else None
      ensures entry.Some? <==> settings[kind].enabled
      ensures entry.Some? ==> entry.value == settings[kind]
    {
      entry := if settings[kind].enabled then Some(settings[kind]) else None;
    }

    /** The second one: the time to claim, if any. */
    method Due(kind: KindName, entry: Entry, now: int) returns (target: Option<int>)
      requires kind in settings
      modifies `nextRun
      ensures OnlyKind(kind)
      ensures
        var s' := DoEvaluate(State(old(View(kind)), Copied(entry), map[], 0, map[], {}), now);
        && View(kind) == s'.kind
        && target == if s'.evaluator.Claiming? then Some(s'.evaluator.target) else None
      ensures EvaluatedAs(old(View(kind)), View(kind), entry, now, target)
    {
      EvaluateIsExact(State(View(kind), Copied(entry), map[], 0, map[], {}), now);
      if kind !in nextRun {
        SetNext(kind, Next(entry, now));
      }
      if kind !in nextRun || now < nextRun[kind] {
        return None;
      }
      target := Some(if kind in retries then retries[kind] else nextRun[kind]);
    }

    /** The last one, after the attempt. */
    method Conclude(kind: KindName, entry: Entry, target: int, outcome: Outcome, now: int)
      requires kind in settings
      modifies `nextRun, `retries
      ensures OnlyKind(kind)
      ensures View(kind) ==
        match outcome
        case StartedOutcome => AfterStart(old(View(kind)), entry, now)
        case ConsumedOutcome => AfterCompleted(old(View(kind)), entry, now)
        case RetryOutcome => AfterRefusal(old(View(kind)), target, now)
      ensures settings == old(settings) && runs == old(runs)
      ensures outcome.RetryOutcome? ==> View(kind).retry == Some(target) && View(kind).nextRun == Some(now + 60_000_000)
      ensures outcome.ConsumedOutcome? ==> View(kind).retry == None && MovedOn(View(kind), entry, now)
      ensures outcome.StartedOutcome? ==>
        && View(kind).retry == old(View(kind)).retry
        && if kind in runs then MovedOn(View(kind), entry, now) else View(kind).nextRun == old(View(kind)).nextRun
    {
      CompletedMovesOn(View(kind), entry, now);
      match outcome
      case StartedOutcome =>
        if kind in runs {
          SetNext(kind, Next(entry, now));
        }
      case ConsumedOutcome =>
        SetRetry(kind, None);
        SetNext(kind, Next(entry, now));
      case RetryOutcome =>
        SetRetry(kind, Some(target));
        SetNext(kind, Some(now + MINUTE));
    }
  }
}
