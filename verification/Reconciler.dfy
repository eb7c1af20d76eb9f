/** The addon controller (controllers/addon_controller.go): one reconcile as a machine that stops at
    every call to the API server, and the controller's methods, which run that machine to its end. */
module Reconciler {
  import opened AddonTypes
  import opened WorkflowNames

  // ---------------------------------------------------------------------------
  // The machine.

  datatype Verdict = Valid | DependencyPending(reason: string) | Invalid(reason: string) | Panicked

  /** The answers to the calls of one reconcile. */
  datatype Replies = Replies(
    listed: bool,                          // listing the old workflows worked
    verdict: Verdict,                      // of the validator
    updated: bool,                         // the update of the finalizers landed
    now: int,                              // the clock, in milliseconds
    submitted: set<LifecycleStep>,         // the workflow exists after submission
    phases: map<LifecycleStep, WfPhase>,   // phases fetched; a missing one could not be fetched
    secrets: Option<seq<string>>,          // names of the secrets listed
    observed: Option<seq<string>>)         // resources observed

  /** Where a reconcile stands: about to decide or to make the call named. At `Write` it hands its
      status to the updater, and at `Stop` it ends without writing one. */
  datatype Point =
    | Begin | ListOld | Validating | AddFinalizer | Deadline
    | RunWf(step: LifecycleStep) | SubmitWf(step: LifecycleStep) | FetchWf(step: LifecycleStep)
    | AfterWf(step: LifecycleStep)
    | ListSecrets | Observe | RemoveFinalizer
    | Write | Stop

  predicate Ended(at: Point) { at == Write || at == Stop }

  /** The points that call the API server or change the cluster. */
  predicate IsCall(at: Point) {
    at.ListOld? || at.AddFinalizer? || at.SubmitWf? || at.FetchWf? || at.ListSecrets? || at.Observe? || at.RemoveFinalizer?
  }

  /** A workflow is not run again once its step is over. */
  predicate StepOver(step: LifecycleStep, st: Status) {
    match step
    case Prereqs => st.prereqs.IsCompleted()
    case Install => st.installed.IsCompleted()
    case Delete => st.installed == DeleteFailed || st.installed == DeleteSucceeded
    case Validate => false
  }

  /** A failed submission ends a delete at once and makes the other steps write their status. */
  function Abort(step: LifecycleStep): Point { if step == Delete then Stop else Write }

  predicate HasSecrets(needed: seq<string>, found: seq<string>) {
    forall i | 0 <= i < |needed| :: needed[i] in found
  }

  predicate SecretsThere(r: Record, rp: Replies) {
    rp.secrets.Some? && HasSecrets(r.spec.secrets, rp.secrets.value)
  }

  function Advance(cx: Context, r: Record, at: Point, st: Status, rp: Replies): (Point, Status) {
    match at
    case Begin =>
      if r.deleting then
        if !st.installed.IsDeleting() then (Write, WithInstalled(st, Deleting, ""))
        else if r.spec.delete.template != "" then (RunWf(Delete), st)
        else (RemoveFinalizer, st)
      else
        var st' := st.(checksum := Checksum(cx, r.spec), resources := []);
        if st.checksum != Checksum(cx, r.spec) then (ListOld, st')
        else if st'.installed.IsCompleted() then (Write, st')
        else (Validating, st')
    case ListOld =>
      if rp.listed then (Write, WithPrereqs(Cleared(st.(startTime := rp.now)), Pending, ""))
      else (Write, st)
    case Validating => (
      match rp.verdict
      case Valid => (if FINALIZER in r.finalizers then Deadline else AddFinalizer, st)
      case DependencyPending(reason) => (Write, WithInstalled(st, Pending, reason))
      case Invalid(reason) => (Write, WithInstalled(st, ValidationFailed, reason))
      case Panicked => (Stop, st)
    )
    case AddFinalizer =>
      // The server answers an update with the object it stored, status included.
      if rp.updated then (Deadline, r.status) else (Write, st)
    case Deadline =>
      if st.installed.IsCompleted() then (Observe, st)
      else if rp.now - st.startTime >= TTL then (Write, WithInstalled(st, Failed, "ttl expired"))
      else (RunWf(Prereqs), st)
    case RunWf(step) =>
      if StepOver(step, st) then (AfterWf(step), st)
      else if r.spec.Workflow(step).template == "" then (AfterWf(step), WithStep(st, step, Succeeded, ""))
      else (SubmitWf(step), st)
    case SubmitWf(step) =>
      if step in rp.submitted then (FetchWf(step), st)
      else (Abort(step), WithStep(st, step, Failed, ""))
    case FetchWf(step) =>
      if step in rp.phases && rp.phases[step] != WfUnknown
      then (AfterWf(step), WithStep(st, step, ConvertPhase(step, rp.phases[step]), ""))
      else (AfterWf(step), st)
    case AfterWf(Prereqs) =>
      if st.prereqs.IsSucceeded() then (ListSecrets, st)
      else if st.prereqs.IsFailed() then (Observe, WithInstalled(st, Failed, ""))
      else (Observe, st)
    case AfterWf(Delete) => (if st.installed.IsSucceeded() then RemoveFinalizer else Stop, st)
    case AfterWf(_) => (Observe, st)
    case ListSecrets =>
      if SecretsThere(r, rp) then (RunWf(Install), st)
      else (Write, WithInstalled(st, Failed, "could not validate secrets"))
    case Observe =>
      if rp.observed == None then (Write, WithInstalled(st, Failed, "failed to find deployed resources"))
      else (Write, if rp.observed.value != [] then st.(resources := rp.observed.value) else st)
    case RemoveFinalizer =>
      (Stop, if rp.updated then st else WithInstalled(st, DeleteFailed, "could not be deleted"))
    case Write => (Write, st)
    case Stop => (Stop, st)
  }

  function Rank(at: Point): nat {
    match at
    case Begin => 24 case Validating => 23 case AddFinalizer => 22 case Deadline => 21
    case RunWf(Prereqs) => 20 case SubmitWf(Prereqs) => 19 case FetchWf(Prereqs) => 18 case AfterWf(Prereqs) => 17
    case ListSecrets => 16
    case RunWf(_) => 15 case SubmitWf(_) => 14 case FetchWf(_) => 13 case AfterWf(_) => 12
    case Observe => 1 case RemoveFinalizer => 1 case ListOld => 1
    case Write => 0 case Stop => 0
  }

  /** A finished reconcile: the calls it made, how it ended and with which status. */
  datatype Result = Result(calls: seq<Point>, end: Point, status: Status)

  function After(calls: seq<Point>, rest: Result): Result { rest.(calls := calls + rest.calls) }

  function Drive(cx: Context, r: Record, at: Point, st: Status, rp: Replies): (res: Result)
    ensures Ended(res.end)
    decreases Rank(at)
  {
    if Ended(at) then Result([], at, st)
    else
      var (at', st') := Advance(cx, r, at, st, rp);
      var rest := Drive(cx, r, at', st', rp);
      if IsCall(at) then After([at], rest) else rest
  }

  lemma {:induction false} DriveOnce(cx: Context, r: Record, at: Point, st: Status, rp: Replies, at': Point, st': Status)
    requires !Ended(at) && Advance(cx, r, at, st, rp) == (at', st')
    ensures var rest := Drive(cx, r, at', st', rp);
            Drive(cx, r, at, st, rp) == if IsCall(at) then After([at], rest) else rest
  {
  }

  lemma {:induction false} AfterAfter(calls: seq<Point>, more: seq<Point>, rest: Result)
    ensures After(calls, After(more, rest)) == After(calls + more, rest)
  {
    assert calls + (more + rest.calls) == calls + more + rest.calls;
  }

  function Reconcile(cx: Context, r: Record, rp: Replies): Result { Drive(cx, r, Begin, r.status, rp) }

  // ---------------------------------------------------------------------------
  // The race guard.

  /** The updater refuses to put a running phase over a completed one of the same cycle. */
  predicate GuardFires(current: Status, incoming: Status) {
    current.installed.IsCompleted() && incoming.installed.IsRunning() && current.checksum == incoming.checksum
  }

  /** A status fit to replace the one a call read: the guard lets it pass, and it does not turn one
      completed phase into another. */
  predicate Follows(read: Status, st: Status) {
    && !GuardFires(read, st)
    && (read.installed.IsCompleted() && st.installed.IsCompleted() ==> st.installed == read.installed)
  }

  /** What a reconcile keeps at every point, so that its own snapshot never trips the guard. */
  predicate Unguarded(cx: Context, r: Record, at: Point, st: Status) {
    match at
    case Begin => st == r.status
    case ListOld =>
      !r.deleting && st.checksum == Checksum(cx, r.spec) != r.status.checksum && st.installed == r.status.installed
    case Write => Follows(r.status, st)
    case RunWf(Delete) | SubmitWf(Delete) | FetchWf(Delete) | AfterWf(Delete) | RemoveFinalizer | Stop => true
    case _ => !r.deleting && !r.status.installed.IsCompleted()
  }

  lemma {:induction false} AdvanceUnguarded(cx: Context, r: Record, at: Point, st: Status, rp: Replies)
    requires Unguarded(cx, r, at, st)
    ensures var (at', st') := Advance(cx, r, at, st, rp); Unguarded(cx, r, at', st')
  {
  }

  lemma {:induction false} DriveUnguarded(cx: Context, r: Record, at: Point, st: Status, rp: Replies)
    requires Unguarded(cx, r, at, st)
    ensures Unguarded(cx, r, Drive(cx, r, at, st, rp).end, Drive(cx, r, at, st, rp).status)
    decreases Rank(at)
  {
    if !Ended(at) {
      AdvanceUnguarded(cx, r, at, st, rp);
      var (at', st') := Advance(cx, r, at, st, rp);
      DriveUnguarded(cx, r, at', st', rp);
    }
  }

  /** Whatever the cluster answers, the status a reconcile wants to write passes the guard against the
      version the reconcile read, and does not turn a completed phase of it into another one. */
  lemma {:induction false} NoGuardOnOwnSnapshot(cx: Context, r: Record, rp: Replies)
    requires Reconcile(cx, r, rp).end == Write
    ensures Follows(r.status, Reconcile(cx, r, rp).status)
  {
    DriveUnguarded(cx, r, Begin, r.status, rp);
  }

  // ---------------------------------------------------------------------------
  // Convergence.

  predicate Terminal(phase: WfPhase) { phase == WfSucceeded || phase == WfFailed || phase == WfError }

  /** Every call of a reconcile works: validation passes, workflows exist and can be fetched. */
  predicate AllWell(r: Record, rp: Replies) {
    && rp.verdict == Valid && rp.updated && rp.submitted == {Prereqs, Install, Delete, Validate}
    && rp.observed.Some? && Prereqs in rp.phases && Install in rp.phases
  }

  /** What the status says of the prerequisites once their workflow has been looked at. */
  function PrereqsNow(r: Record, rp: Replies): Phase
    requires Prereqs in rp.phases
  {
    if r.status.prereqs.IsCompleted() then r.status.prereqs
    else if r.spec.prereqs.template == "" then Succeeded
    else if rp.phases[Prereqs] == WfUnknown then r.status.prereqs
    else ConvertPhase(Prereqs, rp.phases[Prereqs])
  }

  /** When one reconcile that meets no error ends an install cycle: the deadline is over, or the
      prerequisites failed, or they succeeded and a secret is missing or the install is over too. */
  predicate Settles(r: Record, rp: Replies)
    requires Prereqs in rp.phases && Install in rp.phases
  {
    || rp.now - r.status.startTime >= TTL
    || PrereqsNow(r, rp).IsFailed()
    || (PrereqsNow(r, rp).IsSucceeded()
        && (!SecretsThere(r, rp)
            || r.spec.install.template == "" || Terminal(rp.phases[Install])))
  }

  /** Two stages of one reconcile that end alike. */
  ghost predicate SameEnd(cx: Context, r: Record, rp: Replies, at: Point, st: Status, at': Point, st': Status) {
    && Drive(cx, r, at, st, rp).end == Drive(cx, r, at', st', rp).end
    && Drive(cx, r, at, st, rp).status == Drive(cx, r, at', st', rp).status
  }

  lemma {:induction false} Unwind(cx: Context, r: Record, rp: Replies, at: Point, st: Status, at': Point, st': Status)
    requires !Ended(at) && Advance(cx, r, at, st, rp) == (at', st')
    ensures SameEnd(cx, r, rp, at, st, at', st')
  {
  }

  /** The status after a workflow step that met no error. */
  function StepResult(r: Record, step: LifecycleStep, st: Status, rp: Replies): Status
    requires step in rp.phases
  {
    if StepOver(step, st) then st
    else if r.spec.Workflow(step).template == "" then WithStep(st, step, Succeeded, "")
    else if rp.phases[step] == WfUnknown then st
    else WithStep(st, step, ConvertPhase(step, rp.phases[step]), "")
  }

  lemma {:induction false} DriveStep(cx: Context, r: Record, step: LifecycleStep, st: Status, rp: Replies)
    requires step in rp.phases && step in rp.submitted
    ensures SameEnd(cx, r, rp, RunWf(step), st, AfterWf(step), StepResult(r, step, st, rp))
  {
    if StepOver(step, st) || r.spec.Workflow(step).template == "" {
      Unwind(cx, r, rp, RunWf(step), st, AfterWf(step), StepResult(r, step, st, rp));
    } else {
      Unwind(cx, r, rp, RunWf(step), st, SubmitWf(step), st);
      Unwind(cx, r, rp, SubmitWf(step), st, FetchWf(step), st);
      Unwind(cx, r, rp, FetchWf(step), st, AfterWf(step), StepResult(r, step, st, rp));
    }
  }

  lemma {:induction false} DriveObserve(cx: Context, r: Record, st: Status, rp: Replies)
    requires rp.observed.Some?
    ensures var res := Drive(cx, r, Observe, st, rp);
            res.end == Write && res.status.checksum == st.checksum && res.status.installed == st.installed
  {
    var (at, st') := Advance(cx, r, Observe, st, rp);
    Unwind(cx, r, rp, Observe, st, at, st');
  }

  lemma {:induction false} InstallResult(r: Record, st: Status, rp: Replies)
    requires Install in rp.phases && !st.installed.IsCompleted()
    ensures var st' := StepResult(r, Install, st, rp);
            && st'.checksum == st.checksum
            && (st'.installed.IsCompleted() <==> r.spec.install.template == "" || Terminal(rp.phases[Install]))
  {
  }

  lemma {:induction false} PrereqsResult(r: Record, st: Status, rp: Replies)
    requires Prereqs in rp.phases && !st.installed.IsCompleted() && st.prereqs == r.status.prereqs
    ensures var st' := StepResult(r, Prereqs, st, rp);
            && st'.checksum == st.checksum && st'.prereqs == PrereqsNow(r, rp)
            && (st'.installed.IsCompleted() ==> st'.prereqs.IsFailed())
  {
  }

  lemma {:induction false} DriveRunInstall(cx: Context, r: Record, st: Status, rp: Replies)
    requires AllWell(r, rp) && !st.installed.IsCompleted()
    ensures var res := Drive(cx, r, RunWf(Install), st, rp);
            && res.end == Write && res.status.checksum == st.checksum
            && (res.status.installed.IsCompleted() <==> r.spec.install.template == "" || Terminal(rp.phases[Install]))
  {
    var st' := StepResult(r, Install, st, rp);
    InstallResult(r, st, rp);
    DriveStep(cx, r, Install, st, rp);
    Unwind(cx, r, rp, AfterWf(Install), st', Observe, st');
    DriveObserve(cx, r, st', rp);
  }

  lemma {:induction false} DriveInstall(cx: Context, r: Record, st: Status, rp: Replies)
    requires AllWell(r, rp) && !st.installed.IsCompleted() && st.prereqs.IsSucceeded()
    ensures var res := Drive(cx, r, ListSecrets, st, rp);
            && res.end == Write && res.status.checksum == st.checksum
            && (res.status.installed.IsCompleted() <==>
                || !SecretsThere(r, rp)
                || r.spec.install.template == "" || Terminal(rp.phases[Install]))
  {
    if SecretsThere(r, rp) {
      Unwind(cx, r, rp, ListSecrets, st, RunWf(Install), st);
      DriveRunInstall(cx, r, st, rp);
    } else {
      var st' := WithInstalled(st, Failed, "could not validate secrets");
      Unwind(cx, r, rp, ListSecrets, st, Write, st');
    }
  }

  lemma {:induction false} DrivePrereqs(cx: Context, r: Record, st: Status, rp: Replies)
    requires AllWell(r, rp) && !st.installed.IsCompleted()
    requires st.prereqs == r.status.prereqs && rp.now - r.status.startTime < TTL
    ensures var res := Drive(cx, r, RunWf(Prereqs), st, rp);
            && res.end == Write && res.status.checksum == st.checksum
            && (res.status.installed.IsCompleted() <==> Settles(r, rp))
  {
    var st1 := StepResult(r, Prereqs, st, rp);
    DriveStep(cx, r, Prereqs, st, rp);
    var (at2, st2) := Advance(cx, r, AfterWf(Prereqs), st1, rp);
    Unwind(cx, r, rp, AfterWf(Prereqs), st1, at2, st2);
    PrereqsResult(r, st, rp);
    if st1.prereqs.IsSucceeded() {
      DriveInstall(cx, r, st2, rp);
    } else {
      DriveObserve(cx, r, st2, rp);
    }
  }

  /** From an unfinished cycle whose checksum matches, one reconcile that meets no error writes a
      completed phase exactly when `Settles` holds. */
  lemma {:induction false} ConvergesExactly(cx: Context, r: Record, rp: Replies)
    requires !r.deleting && r.status.checksum == Checksum(cx, r.spec) && !r.status.installed.IsCompleted()
    requires AllWell(r, rp)
    ensures var res := Reconcile(cx, r, rp);
            && res.end == Write && res.status.checksum == r.status.checksum
            && (res.status.installed.IsCompleted() <==> Settles(r, rp))
  {
    var st := r.status.(resources := []);
    Unwind(cx, r, rp, Begin, r.status, Validating, st);
    var st' := st;
    if FINALIZER in r.finalizers {
      Unwind(cx, r, rp, Validating, st, Deadline, st);
    } else {
      st' := r.status;
      Unwind(cx, r, rp, Validating, st, AddFinalizer, st);
      Unwind(cx, r, rp, AddFinalizer, st, Deadline, st');
    }
    var (at2, st2) := Advance(cx, r, Deadline, st', rp);
    Unwind(cx, r, rp, Deadline, st', at2, st2);
    if rp.now - r.status.startTime < TTL {
      DrivePrereqs(cx, r, st', rp);
    }
  }

  /** In particular the cycle ends once every workflow it has a template for is over, or the hour is. */
  lemma {:induction false} ConvergesWhenWorkflowsAreOver(cx: Context, r: Record, rp: Replies)
    requires !r.deleting && r.status.checksum == Checksum(cx, r.spec) && !r.status.installed.IsCompleted()
    requires AllWell(r, rp)
    requires || rp.now - r.status.startTime >= TTL
             || (&& (r.spec.prereqs.template == "" || Terminal(rp.phases[Prereqs]))
                 && (r.spec.install.template == "" || Terminal(rp.phases[Install])))
    ensures Reconcile(cx, r, rp).status.installed.IsCompleted()
    ensures !GuardFires(r.status, Reconcile(cx, r, rp).status)
  {
    ConvergesExactly(cx, r, rp);
    NoGuardOnOwnSnapshot(cx, r, rp);
  }
}
