/** One workflow run as the worker thread executes it: the step loop with its
    exceptions and its cooperative stop, the retried finalization, and the
    completion callback. The surroundings (which steps raise, when a stop becomes
    visible, which saves succeed) are arbitrary. */
module WorkflowSteps {

  import opened Common

  datatype StepStatus = Pending | InProgress | Done | Failed | Skipped

  datatype Step = Step(status: StepStatus, progress: int)

  datatype RunStatus = Running | Completed | RunFailed

  datatype Outcome = Success | Interrupted | Error

  const USER_STOP := "Workflow interrotto dall'utente"
  const UNEXPECTED := "Workflow terminato in modo inatteso"
  const STEP_FAILED := "Errore durante l'esecuzione del workflow"
  const NOT_SAVED := "Finalizzazione workflow non persistita"

  /** Everything the run observes. The stop event is read at numbered moments:
      `2 * i` before step `i`, `2 * i + 1` if step `i` raises, `2 * n` after the
      loop and `2 * n + 1` in the callback; once set it stays set. */
  datatype Surroundings = Surroundings(
    stopAt: nat,
    raises: nat -> bool,
    /** The text of a step failure that is meant to be shown. */
    reason: nat -> Option<string>,
    hasStorage: bool,
    saves: nat -> bool)
  {
    predicate StopSeen(moment: nat) { stopAt <= moment }
  }

  /** The first step, from `i` on, that does not complete; `n` if all do. */
  function FirstUndone(env: Surroundings, i: nat, n: nat): (k: nat)
    requires i <= n
    ensures i <= k <= n
    decreases n - i
  {
    if i == n || env.StopSeen(2 * i) || env.raises(i) then i else FirstUndone(env, i + 1, n)
  }

  function Repeat(x: Step, count: nat): (s: seq<Step>)
    ensures |s| == count && forall i :: 0 <= i < count ==> s[i] == x
  {
    seq(count, _ => x)
  }

  /** The steps a run of `n` steps leaves behind. */
  function FinalSteps(env: Surroundings, n: nat): seq<Step> {
    var k := FirstUndone(env, 0, n);
    Repeat(Step(Done, 100), k)
    + if k == n then []
      else if env.StopSeen(2 * k + 1) then Repeat(Step(Skipped, 100), n - k)
      else [Step(Failed, 0)] + Repeat(Step(Skipped, 0), n - k - 1)
  }

  function OutcomeOf(env: Surroundings, n: nat): Outcome {
    var k := FirstUndone(env, 0, n);
    if env.StopSeen(if k == n then 2 * n else 2 * k + 1) then Interrupted
    else if k == n then Success
    else Error
  }

  // ---------- how a run ends, spelled out ----------

  /** No stop is visible before step `k` and no earlier step raises; unless all steps are
      done, one of the two happens at `k`. */
  predicate ReachesExactly(env: Surroundings, n: nat, k: nat) {
    && k <= n
    && (forall i :: 0 <= i < k ==> env.stopAt > 2 * i && !env.raises(i))
    && (k < n ==> env.stopAt <= 2 * k || env.raises(k))
  }

  /** The stop is visible when the run is over: after the loop, or to the handler of the
      step that raised. */
  predicate Stopped(env: Surroundings, n: nat, k: nat) { env.stopAt <= if k == n then 2 * n else 2 * k + 1 }

  ghost predicate StepsEndAs(env: Surroundings, n: nat, k: nat, steps: seq<Step>) {
    && |steps| == n
    && (forall i :: 0 <= i < n && i < k ==> steps[i] == Step(Done, 100))
    && (forall i :: k <= i < n ==>
          steps[i] == if Stopped(env, n, k) then Step(Skipped, 100) else if i == k then Step(Failed, 0) else Step(Skipped, 0))
  }

  /** What is published and how the tracked operation is closed: interrupted, a failure of
      step `k`, a success, or a failure because nothing could be saved. */
  predicate PublishedAs(env: Surroundings, n: nat, k: nat, status: RunStatus, error: Option<string>, operation: Option<Outcome>) {
    if env.hasStorage && !env.saves(1) && !env.saves(2) && !env.saves(3) then
      status == RunFailed && error == Some("Finalizzazione workflow non persistita") && operation == Some(Error)
    else if Stopped(env, n, k) then
      status == Completed && error == Some("Workflow interrotto dall'utente") && operation == Some(Interrupted)
    else if k < n then
      status == RunFailed && operation == Some(Error)
      && error == Some(match env.reason(k) case Some(text) => text case None => "Errore durante l'esecuzione del workflow")
    else
      status == Completed && error == None && operation == Some(Success)
  }

  lemma FirstUndoneIsReached(env: Surroundings, n: nat)
    ensures ReachesExactly(env, n, FirstUndone(env, 0, n))
  {
    FirstUndoneIsFirst(env, 0, n);
    forall i | 0 <= i < FirstUndone(env, 0, n) ensures env.stopAt > 2 * i && !env.raises(i) {
      assert !env.raises(i) && !env.StopSeen(2 * i);
    }
  }

  lemma FinalStepsAreExact(env: Surroundings, n: nat)
    ensures StepsEndAs(env, n, FirstUndone(env, 0, n), FinalSteps(env, n))
    ensures OutcomeOf(env, n) == if Stopped(env, n, FirstUndone(env, 0, n)) then Interrupted else if FirstUndone(env, 0, n) < n then Error else Success
  { }

  predicate Saved(env: Surroundings) { !env.hasStorage || env.saves(1) || env.saves(2) || env.saves(3) }

  class WorkflowManager {
    var status: RunStatus
    var steps: seq<Step>
    var error: Option<string>
    var operation: Option<Outcome>   // how the tracked operation was closed

    constructor (n: nat)
      ensures steps == Repeat(Step(Pending, 0), n)
      ensures status == Running && error == None && operation == None
    {
      status, error, operation := Running, None, None;
      steps := Repeat(Step(Pending, 0), n);
    }

    method UpdateStepStatus(i: nat, status: StepStatus, progress: int)
      modifies this`steps
      ensures steps == if i < |old(steps)| then old(steps)[i := Step(status, progress)] else old(steps)
    {
      if i < |steps| { steps := steps[i := Step(status, progress)]; }
    }

    /** Up to three attempts; any one of them is enough. */
    method PersistFinalization(env: Surroundings) returns (saved: bool)
      ensures saved == Saved(env)
    {
      if !env.hasStorage { return true; }
      var attempt := 1;
      while attempt <= 3
        invariant 1 <= attempt <= 4
        invariant forall a :: 1 <= a < attempt ==> !env.saves(a)
      {
        if env.saves(attempt) { return true; }
        attempt := attempt + 1;
      }
      saved := false;
    }

    method FinalizeWorkflow(env: Surroundings, finalStatus: RunStatus, finalError: Option<string>, outcome: Outcome)
      modifies this`status, this`error, this`operation
      ensures Saved(env) ==> status == finalStatus && error == finalError && operation == Some(outcome)
      ensures !Saved(env) ==> status == RunFailed && error == Some(NOT_SAVED) && operation == Some(Error)
    {
      var saved := PersistFinalization(env);
      if saved {
        status, error, operation := finalStatus, finalError, Some(outcome);
      } else {
        status, error, operation := RunFailed, Some(NOT_SAVED), Some(Error);
      }
    }

    method RunWorkflow(env: Surroundings)
      requires forall i :: 0 <= i < |steps| ==> steps[i] == Step(Pending, 0)
      modifies this
      ensures steps == FinalSteps(env, |old(steps)|)
      ensures Saved(env) ==> operation == Some(OutcomeOf(env, |old(steps)|))
      ensures !Saved(env) ==> operation == Some(Error)
      ensures status == Completed && error == None
         <==> Saved(env) && FirstUndone(env, 0, |old(steps)|) == |old(steps)| && !env.StopSeen(2 * |old(steps)|)
      ensures
        var n, k := |old(steps)|, FirstUndone(env, 0, |old(steps)|);
        ReachesExactly(env, n, k) && StepsEndAs(env, n, k, steps) && PublishedAs(env, n, k, status, error, operation)
    {
      var n := |steps|;
      FirstUndoneIsReached(env, n);
      FinalStepsAreExact(env, n);
      ghost var k := FirstUndone(env, 0, n);
      var workflowStatus, workflowError, outcome := RunFailed, Some(UNEXPECTED), Error;
      var raised := false;
      var i := 0;
      while i < n && !raised
        invariant 0 <= i <= n == |steps|
        invariant i <= k && !raised ==> k == FirstUndone(env, i, n)
        invariant raised ==> k < n && workflowError.Some? && steps == FinalSteps(env, n) && outcome == OutcomeOf(env, n)
        invariant raised && Saved(env) ==> PublishedAs(env, n, k, workflowStatus, workflowError, Some(outcome))
        invariant !raised ==> outcome == Error && workflowStatus == RunFailed
        invariant !raised && i > k ==> env.StopSeen(2 * k)
        invariant !raised ==> forall j :: 0 <= j < n ==>
                    steps[j] == if j < i && j < k then Step(Done, 100)
                                else if j < i then Step(Skipped, 100)
                                else Step(Pending, 0)
      {
        if env.StopSeen(2 * i) {
          UpdateStepStatus(i, Skipped, 100);
          i := i + 1;
          continue;
        }
        UpdateStepStatus(i, InProgress, 0);
        if !env.raises(i) {
          UpdateStepStatus(i, Done, 100);
        } else {
          assert i == k;
          var interrupted := env.StopSeen(2 * i + 1);
          if interrupted {
            workflowStatus, workflowError, outcome := Completed, Some(USER_STOP), Interrupted;
            UpdateStepStatus(i, Skipped, 100);
          } else {
            workflowError := Some(match env.reason(i) case Some(text) => text case None => STEP_FAILED);
            UpdateStepStatus(i, Failed, 0);
          }
          for j := i + 1 to n
            invariant |steps| == n
            invariant forall x :: 0 <= x < i ==> steps[x] == Step(Done, 100)
            invariant steps[i] == if interrupted then Step(Skipped, 100) else Step(Failed, 0)
            invariant forall x :: i < x < j ==> steps[x] == Step(Skipped, if interrupted then 100 else 0)
          {
            UpdateStepStatus(j, Skipped, if interrupted then 100 else 0);
          }
          assert steps == FinalSteps(env, n);
          raised := true;
        }
        i := i + 1;
      }
      if !raised {
        assert steps == FinalSteps(env, n);
        if env.StopSeen(2 * n) {
          workflowStatus, workflowError, outcome := Completed, Some(USER_STOP), Interrupted;
        } else {
          workflowStatus, workflowError, outcome := Completed, None, Success;
        }
      }
      FinalizeWorkflow(env, workflowStatus, workflowError, outcome);
    }

    /** The thread target: the run, then what the callback is told. */
    method RunWorkflowAndNotify(env: Surroundings) returns (succeeded: bool)
      requires forall i :: 0 <= i < |steps| ==> steps[i] == Step(Pending, 0)
      modifies this
      ensures steps == FinalSteps(env, |old(steps)|)
      ensures succeeded <==> Succeeds(env, |old(steps)|)
      ensures
        var n, k := |old(steps)|, FirstUndone(env, 0, |old(steps)|);
        StepsEndAs(env, n, k, steps) && PublishedAs(env, n, k, status, error, operation)
    {
      ghost var n := |steps|;
      RunWorkflow(env);
      succeeded := status == Completed && error == None && !env.StopSeen(2 * |steps| + 1);
    }
  }

  predicate Succeeds(env: Surroundings, n: nat) {
    FirstUndone(env, 0, n) == n && Saved(env) && !env.StopSeen(2 * n + 1)
  }

  // ---------- what the run promises ----------

  /** done^k, then nothing, or skipped only, or one failure and then skipped only. */
  ghost predicate WellShaped(steps: seq<Step>, k: nat) {
    && k <= |steps|
    && (forall i :: 0 <= i < k ==> steps[i].status == Done)
    && (forall i :: k < i < |steps| ==> steps[i].status == Skipped)
    && (k < |steps| ==> steps[k].status == Skipped || steps[k].status == Failed)
  }

  lemma {:induction false} FirstUndoneIsFirst(env: Surroundings, i: nat, n: nat)
    requires i <= n
    ensures var k := FirstUndone(env, i, n);
            && (forall j :: i <= j < k ==> !env.StopSeen(2 * j) && !env.raises(j))
            && (k < n ==> env.StopSeen(2 * k) || env.raises(k))
    decreases n - i
  {
    if !(i == n || env.StopSeen(2 * i) || env.raises(i)) { FirstUndoneIsFirst(env, i + 1, n); }
  }

  /** Whatever raises and whenever the stop comes, the step list has the promised
      shape; it shows a failure exactly when some step raised with no stop seen
      before its handler ran, and every step before it completed. */
  lemma RunIsWellShaped(env: Surroundings, n: nat)
    ensures |FinalSteps(env, n)| == n
    ensures exists k :: WellShaped(FinalSteps(env, n), k)
    ensures (exists i :: 0 <= i < n && FinalSteps(env, n)[i].status == Failed)
       <==> exists i :: 0 <= i < n && env.raises(i) && !env.StopSeen(2 * i + 1)
  {
    var k := FirstUndone(env, 0, n);
    FirstUndoneIsFirst(env, 0, n);
    assert WellShaped(FinalSteps(env, n), k);
    if k < n && !env.StopSeen(2 * k + 1) {
      assert FinalSteps(env, n)[k].status == Failed && env.raises(k);
    } else {
      forall i | 0 <= i < n ensures !(env.raises(i) && !env.StopSeen(2 * i + 1)) {
        if i < k { assert !env.raises(i); } else { assert env.StopSeen(2 * i + 1); }
      }
    }
  }

  /** The callback hears success exactly when no step raised, no stop was visible
      by then and the outcome could be saved; then every step is done. */
  lemma SuccessMeansAllDone(env: Surroundings, n: nat)
    ensures Succeeds(env, n)
       <==> (forall i :: 0 <= i < n ==> !env.raises(i)) && !env.StopSeen(2 * n + 1) && Saved(env)
    ensures Succeeds(env, n) ==> forall i :: 0 <= i < n ==> FinalSteps(env, n)[i].status == Done
    ensures Succeeds(env, n) ==> OutcomeOf(env, n) == Success
  {
    FirstUndoneIsFirst(env, 0, n);
  }

  /** A step before which the stop was visible ends up skipped. */
  lemma SkippedAfterStop(env: Surroundings, n: nat, i: nat)
    requires i < n && env.StopSeen(2 * i)
    ensures |FinalSteps(env, n)| == n && FinalSteps(env, n)[i].status == Skipped
  {
    FirstUndoneIsFirst(env, 0, n);
  }
}
