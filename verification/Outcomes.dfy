/** What one reconcile does, case by case: the calls it makes, in order, how it ends, and the status
    it ends with, field by field. */
module Outcomes {
  import opened AddonTypes
  import opened WorkflowNames
  import opened Reconciler

  lemma {:induction false} AfterNothing(res: Result)
    ensures After([], res) == res
  {
    assert [] + res.calls == res.calls;
  }

  /** One step of a reconcile that has made the calls `calls`. */
  lemma {:induction false} Goes(cx: Context, r: Record, rp: Replies, calls: seq<Point>, at: Point, st: Status, at': Point,
                                st': Status)
    requires !Ended(at) && Advance(cx, r, at, st, rp) == (at', st')
    ensures After(calls, Drive(cx, r, at, st, rp)) ==
            After(if IsCall(at) then calls + [at] else calls, Drive(cx, r, at', st', rp))
  {
    DriveOnce(cx, r, at, st, rp, at', st');
    AfterAfter(calls, [at], Drive(cx, r, at', st', rp));
  }

  lemma {:induction false} EndsAt(cx: Context, r: Record, rp: Replies, calls: seq<Point>, at: Point, st: Status)
    requires Ended(at)
    ensures After(calls, Drive(cx, r, at, st, rp)) == Result(calls, at, st)
  {
    assert calls + [] == calls;
  }

  // ---------------------------------------------------------------------------
  // Deletion.

  /** The first reconcile of an addon that is being deleted records that, and does nothing else. */
  lemma {:induction false} BeginsDeletion(cx: Context, r: Record, rp: Replies)
    requires r.deleting && r.status.installed !in {Deleting, DeleteFailed, DeleteSucceeded}
    ensures Reconcile(cx, r, rp) == Result([], Write, r.status.(installed := Deleting, reason := ""))
  {
    var st := r.status.(installed := Deleting, reason := "");
    AfterNothing(Reconcile(cx, r, rp));
    Goes(cx, r, rp, [], Begin, r.status, Write, st);
    EndsAt(cx, r, rp, [], Write, st);
  }

  /** A finalizer that could not be taken off leaves a failed delete behind, in memory. */
  predicate HeldBack(res: Result, rp: Replies) {
    RemoveFinalizer in res.calls && !rp.updated ==>
      res.status.installed == DeleteFailed && res.status.reason == "could not be deleted"
  }

  /** Later ones run the delete workflow, unless there is none or it is over, and let the finalizer go
      exactly when there is none, or it has succeeded before, or it is found succeeded now. They never
      write a status. */
  lemma {:induction false} DeletionOutcome(cx: Context, r: Record, rp: Replies)
    requires r.deleting && r.status.installed in {Deleting, DeleteFailed, DeleteSucceeded}
    ensures var runs := r.spec.delete.template != "" && r.status.installed == Deleting;
            var lets := || r.spec.delete.template == "" || r.status.installed == DeleteSucceeded
                        || (&& r.status.installed == Deleting && Delete in rp.submitted
                            && Delete in rp.phases && rp.phases[Delete] == WfSucceeded);
            && Reconcile(cx, r, rp).end == Stop
            && Reconcile(cx, r, rp).calls ==
                 (if !runs then [] else if Delete in rp.submitted then [SubmitWf(Delete), FetchWf(Delete)] else [SubmitWf(Delete)])
                 + (if lets then [RemoveFinalizer] else [])
            && (RemoveFinalizer in Reconcile(cx, r, rp).calls <==> lets)
            && HeldBack(Reconcile(cx, r, rp), rp)
  {
    AfterNothing(Reconcile(cx, r, rp));
    if r.spec.delete.template == "" {
      Goes(cx, r, rp, [], Begin, r.status, RemoveFinalizer, r.status);
      LetsGo(cx, r, rp, [], r.status);
    } else {
      Goes(cx, r, rp, [], Begin, r.status, RunWf(Delete), r.status);
      RunsDelete(cx, r, rp);
    }
  }

  lemma {:induction false} LetsGo(cx: Context, r: Record, rp: Replies, calls: seq<Point>, st: Status)
    ensures var res := After(calls, Drive(cx, r, RemoveFinalizer, st, rp));
            res.end == Stop && res.calls == calls + [RemoveFinalizer] && HeldBack(res, rp)
  {
    var st' := Advance(cx, r, RemoveFinalizer, st, rp).1;
    Goes(cx, r, rp, calls, RemoveFinalizer, st, Stop, st');
    EndsAt(cx, r, rp, calls + [RemoveFinalizer], Stop, st');
  }

  /** After the delete workflow has been looked at. */
  lemma {:induction false} AfterDelete(cx: Context, r: Record, rp: Replies, calls: seq<Point>, st: Status)
    requires st.installed in {Deleting, DeleteFailed, DeleteSucceeded, NoPhase} && RemoveFinalizer !in calls
    ensures var res := After(calls, Drive(cx, r, AfterWf(Delete), st, rp));
            && res.end == Stop && HeldBack(res, rp)
            && res.calls == calls + if st.installed == DeleteSucceeded then [RemoveFinalizer] else []
  {
    if st.installed == DeleteSucceeded {
      Goes(cx, r, rp, calls, AfterWf(Delete), st, RemoveFinalizer, st);
      LetsGo(cx, r, rp, calls, st);
    } else {
      Goes(cx, r, rp, calls, AfterWf(Delete), st, Stop, st);
      EndsAt(cx, r, rp, calls, Stop, st);
      assert calls + [] == calls;
    }
  }

  lemma {:induction false} RunsDelete(cx: Context, r: Record, rp: Replies)
    requires r.status.installed in {Deleting, DeleteFailed, DeleteSucceeded} && r.spec.delete.template != ""
    ensures var res := After([], Drive(cx, r, RunWf(Delete), r.status, rp));
            && res.end == Stop && HeldBack(res, rp)
            && (r.status.installed != Deleting ==>
                  res.calls == if r.status.installed == DeleteSucceeded then [RemoveFinalizer] else [])
            && (r.status.installed == Deleting && Delete !in rp.submitted ==> res.calls == [SubmitWf(Delete)])
            && (r.status.installed == Deleting && Delete in rp.submitted ==>
                  res.calls == [SubmitWf(Delete), FetchWf(Delete)]
                               + if Delete in rp.phases && rp.phases[Delete] == WfSucceeded then [RemoveFinalizer] else [])
  {
    var st := r.status;
    if st.installed != Deleting {
      Goes(cx, r, rp, [], RunWf(Delete), st, AfterWf(Delete), st);
      AfterDelete(cx, r, rp, [], st);
    } else {
      Goes(cx, r, rp, [], RunWf(Delete), st, SubmitWf(Delete), st);
      SubmitsDelete(cx, r, rp, st);
    }
  }

  lemma {:induction false} SubmitsDelete(cx: Context, r: Record, rp: Replies, st: Status)
    requires st.installed == Deleting
    ensures var res := After([], Drive(cx, r, SubmitWf(Delete), st, rp));
            && res.end == Stop && HeldBack(res, rp)
            && (Delete !in rp.submitted ==> res.calls == [SubmitWf(Delete)])
            && (Delete in rp.submitted ==>
                  res.calls == [SubmitWf(Delete), FetchWf(Delete)]
                               + if Delete in rp.phases && rp.phases[Delete] == WfSucceeded then [RemoveFinalizer] else [])
  {
    var (at, st1) := Advance(cx, r, SubmitWf(Delete), st, rp);
    Goes(cx, r, rp, [], SubmitWf(Delete), st, at, st1);
    assert [] + [SubmitWf(Delete)] == [SubmitWf(Delete)];
    if Delete in rp.submitted {
      FetchesDelete(cx, r, rp, st);
    } else {
      EndsAt(cx, r, rp, [SubmitWf(Delete)], Stop, st1);
    }
  }

  lemma {:induction false} FetchesDelete(cx: Context, r: Record, rp: Replies, st: Status)
    requires st.installed == Deleting
    ensures var res := After([SubmitWf(Delete)], Drive(cx, r, FetchWf(Delete), st, rp));
            && res.end == Stop && HeldBack(res, rp)
            && res.calls == [SubmitWf(Delete), FetchWf(Delete)]
                            + if Delete in rp.phases && rp.phases[Delete] == WfSucceeded then [RemoveFinalizer] else []
  {
    var st' := Advance(cx, r, FetchWf(Delete), st, rp).1;
    Goes(cx, r, rp, [SubmitWf(Delete)], FetchWf(Delete), st, AfterWf(Delete), st');
    assert [SubmitWf(Delete)] + [FetchWf(Delete)] == [SubmitWf(Delete), FetchWf(Delete)];
    AfterDelete(cx, r, rp, [SubmitWf(Delete), FetchWf(Delete)], st');
  }

  // ---------------------------------------------------------------------------
  // A new cycle, and a finished one.

  /** A spec whose checksum is not on record starts a new cycle, unless the old workflows cannot be listed. */
  lemma {:induction false} NewCycleOutcome(cx: Context, r: Record, rp: Replies)
    requires !r.deleting && r.status.checksum != Checksum(cx, r.spec)
    ensures rp.listed ==>
              Reconcile(cx, r, rp) == Result([ListOld], Write, Status(Checksum(cx, r.spec), Pending, Pending, [], "", rp.now))
    ensures !rp.listed ==>
              Reconcile(cx, r, rp) == Result([ListOld], Write, r.status.(checksum := Checksum(cx, r.spec), resources := []))
  {
    var st := r.status.(checksum := Checksum(cx, r.spec), resources := []);
    var st' := if rp.listed then Status(Checksum(cx, r.spec), Pending, Pending, [], "", rp.now) else st;
    AfterNothing(Reconcile(cx, r, rp));
    Goes(cx, r, rp, [], Begin, r.status, ListOld, st);
    Goes(cx, r, rp, [], ListOld, st, Write, st');
    assert [] + [ListOld] == [ListOld];
    EndsAt(cx, r, rp, [ListOld], Write, st');
  }

  /** A finished cycle is left alone but for the list of resources. */
  lemma {:induction false} FinishedOutcome(cx: Context, r: Record, rp: Replies)
    requires !r.deleting && r.status.checksum == Checksum(cx, r.spec)
    requires r.status.installed in {Succeeded, Failed, DeleteSucceeded, DeleteFailed}
    ensures Reconcile(cx, r, rp) == Result([], Write, r.status.(resources := []))
  {
    var st := r.status.(resources := []);
    AfterNothing(Reconcile(cx, r, rp));
    Goes(cx, r, rp, [], Begin, r.status, Write, st);
    EndsAt(cx, r, rp, [], Write, st);
  }

  // ---------------------------------------------------------------------------
  // An unfinished cycle.

  predicate Unfinished(cx: Context, r: Record) {
    && !r.deleting && r.status.checksum == Checksum(cx, r.spec)
    && r.status.installed in {NoPhase, Pending, ValidationFailed, Deleting}
  }

  lemma {:induction false} ToValidation(cx: Context, r: Record, rp: Replies)
    requires Unfinished(cx, r)
    ensures Reconcile(cx, r, rp) == After([], Drive(cx, r, Validating, r.status.(resources := []), rp))
  {
    AfterNothing(Reconcile(cx, r, rp));
    Goes(cx, r, rp, [], Begin, r.status, Validating, r.status.(resources := []));
  }

  /** What a verdict of the validator leads to, and a finalizer that cannot be put in place. */
  lemma {:induction false} ValidationOutcome(cx: Context, r: Record, rp: Replies)
    requires Unfinished(cx, r)
    ensures rp.verdict.DependencyPending? ==>
              Reconcile(cx, r, rp) ==
                Result([], Write, r.status.(resources := [], installed := Pending, reason := rp.verdict.reason))
    ensures rp.verdict.Invalid? ==>
              Reconcile(cx, r, rp) ==
                Result([], Write, r.status.(resources := [], installed := ValidationFailed, reason := rp.verdict.reason))
    ensures rp.verdict.Panicked? ==> Reconcile(cx, r, rp).calls == [] && Reconcile(cx, r, rp).end == Stop
    ensures rp.verdict == Valid && "delete.addonmgr.keikoproj.io" !in r.finalizers && !rp.updated ==>
              Reconcile(cx, r, rp) == Result([AddFinalizer], Write, r.status.(resources := []))
  {
    var st := r.status.(resources := []);
    ToValidation(cx, r, rp);
    var (at, st') := Advance(cx, r, Validating, st, rp);
    Goes(cx, r, rp, [], Validating, st, at, st');
    if rp.verdict != Valid {
      EndsAt(cx, r, rp, [], at, st');
    } else if FINALIZER !in r.finalizers && !rp.updated {
      Goes(cx, r, rp, [], AddFinalizer, st, Write, st);
      assert [] + [AddFinalizer] == [AddFinalizer];
      EndsAt(cx, r, rp, [AddFinalizer], Write, st);
    }
  }

  /** The addon is valid and has its finalizer, or gets it. */
  predicate Admitted(cx: Context, r: Record, rp: Replies) {
    Unfinished(cx, r) && rp.verdict == Valid && ("delete.addonmgr.keikoproj.io" in r.finalizers || rp.updated)
  }

  /** The calls made and the status held once the addon is admitted: the answer to the update of the
      finalizers brings the status back as it was read. */
  function AdmittedCalls(r: Record): seq<Point> { if "delete.addonmgr.keikoproj.io" in r.finalizers then [] else [AddFinalizer] }

  function AdmittedStatus(r: Record): Status {
    if "delete.addonmgr.keikoproj.io" in r.finalizers then r.status.(resources := []) else r.status
  }

  lemma {:induction false} ToDeadline(cx: Context, r: Record, rp: Replies)
    requires Admitted(cx, r, rp)
    ensures Reconcile(cx, r, rp) == After(AdmittedCalls(r), Drive(cx, r, Deadline, AdmittedStatus(r), rp))
  {
    var st := r.status.(resources := []);
    ToValidation(cx, r, rp);
    if FINALIZER in r.finalizers {
      Goes(cx, r, rp, [], Validating, st, Deadline, st);
    } else {
      Goes(cx, r, rp, [], Validating, st, AddFinalizer, st);
      Goes(cx, r, rp, [], AddFinalizer, st, Deadline, r.status);
      assert [] + [AddFinalizer] == [AddFinalizer];
    }
  }

  /** An hour after its start a cycle fails, without another call. */
  lemma {:induction false} DeadlineOutcome(cx: Context, r: Record, rp: Replies)
    requires Admitted(cx, r, rp) && rp.now - r.status.startTime >= 3_600_000
    ensures Reconcile(cx, r, rp) ==
              Result(AdmittedCalls(r), Write, AdmittedStatus(r).(installed := Failed, reason := "ttl expired"))
  {
    var st := AdmittedStatus(r);
    var st' := st.(installed := Failed, reason := "ttl expired");
    ToDeadline(cx, r, rp);
    Goes(cx, r, rp, AdmittedCalls(r), Deadline, st, Write, st');
    EndsAt(cx, r, rp, AdmittedCalls(r), Write, st');
  }

  predicate InTime(cx: Context, r: Record, rp: Replies) {
    Admitted(cx, r, rp) && rp.now - r.status.startTime < 3_600_000
  }

  /** The prerequisites have a workflow that is to be looked at. */
  predicate RunsPrereqs(r: Record) {
    r.status.prereqs !in {Succeeded, Failed, DeleteSucceeded, DeleteFailed} && r.spec.prereqs.template != ""
  }

  /** The phase of a workflow as it is fetched; `WfUnknown` if that fails or there is none yet. */
  function Fetched(rp: Replies, step: LifecycleStep): WfPhase {
    if step in rp.phases then rp.phases[step] else WfUnknown
  }

  function PrereqsCalls(r: Record): seq<Point> {
    AdmittedCalls(r) + if RunsPrereqs(r) then [SubmitWf(Prereqs), FetchWf(Prereqs)] else []
  }

  /** The status once the prerequisites have been looked at. */
  function PrereqsStatus(r: Record, rp: Replies): Status {
    var st := AdmittedStatus(r);
    if r.status.prereqs in {Succeeded, Failed, DeleteSucceeded, DeleteFailed} then st
    else if r.spec.prereqs.template == "" then st.(prereqs := Succeeded, installed := Pending, reason := "")
    else match Fetched(rp, Prereqs)
         case WfUnknown => st
         case WfPending | WfRunning => st.(prereqs := Pending, installed := Pending, reason := "")
         case WfSucceeded => st.(prereqs := Succeeded, installed := Pending, reason := "")
         case WfFailed | WfError => st.(prereqs := Failed, installed := Failed, reason := "")
  }

  lemma {:induction false} ToPrereqs(cx: Context, r: Record, rp: Replies)
    requires InTime(cx, r, rp)
    ensures Reconcile(cx, r, rp) == After(AdmittedCalls(r), Drive(cx, r, RunWf(Prereqs), AdmittedStatus(r), rp))
  {
    ToDeadline(cx, r, rp);
    Goes(cx, r, rp, AdmittedCalls(r), Deadline, AdmittedStatus(r), RunWf(Prereqs), AdmittedStatus(r));
  }

  /** A prerequisites workflow that cannot be submitted fails the cycle. */
  lemma {:induction false} PrereqsNotSubmitted(cx: Context, r: Record, rp: Replies)
    requires InTime(cx, r, rp) && RunsPrereqs(r) && Prereqs !in rp.submitted
    ensures Reconcile(cx, r, rp) ==
              Result(AdmittedCalls(r) + [SubmitWf(Prereqs)], Write,
                     AdmittedStatus(r).(prereqs := Failed, installed := Failed, reason := ""))
  {
    var calls, st := AdmittedCalls(r), AdmittedStatus(r);
    var st' := st.(prereqs := Failed, installed := Failed, reason := "");
    ToPrereqs(cx, r, rp);
    Goes(cx, r, rp, calls, RunWf(Prereqs), st, SubmitWf(Prereqs), st);
    Goes(cx, r, rp, calls, SubmitWf(Prereqs), st, Write, st');
    EndsAt(cx, r, rp, calls + [SubmitWf(Prereqs)], Write, st');
  }

  predicate PrereqsLookedAt(cx: Context, r: Record, rp: Replies) {
    InTime(cx, r, rp) && (RunsPrereqs(r) ==> Prereqs in rp.submitted)
  }

  lemma {:induction false} LooksAtPrereqs(cx: Context, r: Record, rp: Replies, calls: seq<Point>, st: Status, st': Status)
    requires Advance(cx, r, RunWf(Prereqs), st, rp) == (SubmitWf(Prereqs), st) && Prereqs in rp.submitted
    requires Advance(cx, r, FetchWf(Prereqs), st, rp) == (AfterWf(Prereqs), st')
    ensures After(calls, Drive(cx, r, RunWf(Prereqs), st, rp)) ==
            After(calls + [SubmitWf(Prereqs), FetchWf(Prereqs)], Drive(cx, r, AfterWf(Prereqs), st', rp))
  {
    Goes(cx, r, rp, calls, RunWf(Prereqs), st, SubmitWf(Prereqs), st);
    Goes(cx, r, rp, calls, SubmitWf(Prereqs), st, FetchWf(Prereqs), st);
    Goes(cx, r, rp, calls + [SubmitWf(Prereqs)], FetchWf(Prereqs), st, AfterWf(Prereqs), st');
    assert calls + [SubmitWf(Prereqs)] + [FetchWf(Prereqs)] == calls + [SubmitWf(Prereqs), FetchWf(Prereqs)];
  }

  lemma {:induction false} PrereqsAdvance(cx: Context, r: Record, rp: Replies)
    ensures RunsPrereqs(r) ==>
              && Advance(cx, r, RunWf(Prereqs), AdmittedStatus(r), rp) == (SubmitWf(Prereqs), AdmittedStatus(r))
              && Advance(cx, r, FetchWf(Prereqs), AdmittedStatus(r), rp) == (AfterWf(Prereqs), PrereqsStatus(r, rp))
    ensures !RunsPrereqs(r) ==>
              Advance(cx, r, RunWf(Prereqs), AdmittedStatus(r), rp) == (AfterWf(Prereqs), PrereqsStatus(r, rp))
  {
  }

  lemma {:induction false} AfterPrereqsRun(cx: Context, r: Record, rp: Replies)
    requires PrereqsLookedAt(cx, r, rp)
    ensures Reconcile(cx, r, rp) == After(PrereqsCalls(r), Drive(cx, r, AfterWf(Prereqs), PrereqsStatus(r, rp), rp))
  {
    PrereqsAdvance(cx, r, rp);
    ToPrereqs(cx, r, rp);
    if RunsPrereqs(r) {
      LooksAtPrereqs(cx, r, rp, AdmittedCalls(r), AdmittedStatus(r), PrereqsStatus(r, rp));
    } else {
      SkipsPrereqs(cx, r, rp, AdmittedCalls(r), AdmittedStatus(r), PrereqsStatus(r, rp));
    }
  }

  lemma {:induction false} SkipsPrereqs(cx: Context, r: Record, rp: Replies, calls: seq<Point>, st: Status, st': Status)
    requires Advance(cx, r, RunWf(Prereqs), st, rp) == (AfterWf(Prereqs), st')
    ensures After(calls, Drive(cx, r, RunWf(Prereqs), st, rp)) == After(calls + [], Drive(cx, r, AfterWf(Prereqs), st', rp))
  {
    Goes(cx, r, rp, calls, RunWf(Prereqs), st, AfterWf(Prereqs), st');
    assert calls + [] == calls;
  }

  /** What the prerequisites workflow has come to is what the status says of it, however the reconcile
      goes on. */
  lemma {:induction false} PrereqsReported(cx: Context, r: Record, rp: Replies)
    requires PrereqsLookedAt(cx, r, rp) && r.status.prereqs in {NoPhase, Pending}
    ensures var st := Reconcile(cx, r, rp).status;
            && (r.spec.prereqs.template == "" ==> st.prereqs == Succeeded)
            && (r.spec.prereqs.template != "" && Prereqs in rp.phases ==>
                  && (rp.phases[Prereqs] == WfSucceeded ==> st.prereqs == Succeeded)
                  && (rp.phases[Prereqs] in {WfPending, WfRunning} ==>
                        st.prereqs == Pending && (rp.observed.Some? ==> st.installed == Pending && st.reason == ""))
                  && (rp.phases[Prereqs] in {WfFailed, WfError} ==> st.prereqs == Failed && st.installed == Failed))
  {
    if PrereqsStatus(r, rp).prereqs !in {Succeeded, DeleteSucceeded} {
      PrereqsOutcome(cx, r, rp);
    } else if !AllSecrets(r, rp) {
      SecretsOutcome(cx, r, rp);
    } else {
      InstallOutcome(cx, r, rp);
    }
  }

  /** The end of a reconcile that has run its workflows: the resources it finds are recorded. */
  function Observed(calls: seq<Point>, st: Status, rp: Replies): Result {
    Result(calls + [Observe], Write,
           if rp.observed == None then st.(installed := Failed, reason := "failed to find deployed resources")
           else if rp.observed.value != [] then st.(resources := rp.observed.value) else st)
  }

  lemma {:induction false} ObservesLast(cx: Context, r: Record, rp: Replies, calls: seq<Point>, st: Status)
    ensures After(calls, Drive(cx, r, Observe, st, rp)) == Observed(calls, st, rp)
  {
    var st' := Observed(calls, st, rp).status;
    Goes(cx, r, rp, calls, Observe, st, Write, st');
    EndsAt(cx, r, rp, calls + [Observe], Write, st');
  }

  /** While the prerequisites are not over there is no install, and once they have failed there is none. */
  lemma {:induction false} PrereqsOutcome(cx: Context, r: Record, rp: Replies)
    requires PrereqsLookedAt(cx, r, rp) && PrereqsStatus(r, rp).prereqs !in {Succeeded, DeleteSucceeded}
    ensures var st := PrereqsStatus(r, rp);
            Reconcile(cx, r, rp) ==
              Observed(PrereqsCalls(r),
                       if st.prereqs in {Failed, DeleteFailed} then st.(installed := Failed, reason := "") else st, rp)
  {
    var calls, st := PrereqsCalls(r), PrereqsStatus(r, rp);
    var st' := if st.prereqs in {Failed, DeleteFailed} then st.(installed := Failed, reason := "") else st;
    AfterPrereqsRun(cx, r, rp);
    Goes(cx, r, rp, calls, AfterWf(Prereqs), st, Observe, st');
    ObservesLast(cx, r, rp, calls, st');
  }

  /** Every secret that the spec names is among those listed. */
  predicate AllSecrets(r: Record, rp: Replies) {
    rp.secrets.Some? && forall s | s in r.spec.secrets :: s in rp.secrets.value
  }

  predicate PrereqsDone(cx: Context, r: Record, rp: Replies) {
    PrereqsLookedAt(cx, r, rp) && PrereqsStatus(r, rp).prereqs in {Succeeded, DeleteSucceeded}
  }

  lemma {:induction false} AllSecretsThere(r: Record, rp: Replies)
    ensures AllSecrets(r, rp) <==> SecretsThere(r, rp)
  {
  }

  lemma {:induction false} ToSecrets(cx: Context, r: Record, rp: Replies)
    requires PrereqsDone(cx, r, rp)
    ensures Reconcile(cx, r, rp) == After(PrereqsCalls(r), Drive(cx, r, ListSecrets, PrereqsStatus(r, rp), rp))
  {
    AfterPrereqsRun(cx, r, rp);
    Goes(cx, r, rp, PrereqsCalls(r), AfterWf(Prereqs), PrereqsStatus(r, rp), ListSecrets, PrereqsStatus(r, rp));
  }

  lemma {:induction false} LacksSecrets(cx: Context, r: Record, rp: Replies, calls: seq<Point>, st: Status)
    requires !SecretsThere(r, rp)
    ensures After(calls, Drive(cx, r, ListSecrets, st, rp)) ==
            Result(calls + [ListSecrets], Write, st.(installed := Failed, reason := "could not validate secrets"))
  {
    var st' := st.(installed := Failed, reason := "could not validate secrets");
    Goes(cx, r, rp, calls, ListSecrets, st, Write, st');
    EndsAt(cx, r, rp, calls + [ListSecrets], Write, st');
  }

  /** A missing secret fails the cycle before the install. */
  lemma {:induction false} SecretsOutcome(cx: Context, r: Record, rp: Replies)
    requires PrereqsDone(cx, r, rp) && !AllSecrets(r, rp)
    ensures Reconcile(cx, r, rp) ==
              Result(PrereqsCalls(r) + [ListSecrets], Write,
                     PrereqsStatus(r, rp).(installed := Failed, reason := "could not validate secrets"))
  {
    AllSecretsThere(r, rp);
    ToSecrets(cx, r, rp);
    LacksSecrets(cx, r, rp, PrereqsCalls(r), PrereqsStatus(r, rp));
  }

  /** With prerequisites and secrets in place the install is run, and its phase is taken over. */
  lemma {:induction false} InstallOutcome(cx: Context, r: Record, rp: Replies)
    requires PrereqsDone(cx, r, rp) && AllSecrets(r, rp)
    ensures var calls, st := PrereqsCalls(r) + [ListSecrets], PrereqsStatus(r, rp);
            && (r.spec.install.template == "" ==>
                  Reconcile(cx, r, rp) == Observed(calls, st.(installed := Succeeded, reason := ""), rp))
            && (r.spec.install.template != "" && Install !in rp.submitted ==>
                  Reconcile(cx, r, rp) == Result(calls + [SubmitWf(Install)], Write, st.(installed := Failed, reason := "")))
            && (r.spec.install.template != "" && Install in rp.submitted ==>
                  Reconcile(cx, r, rp) ==
                    Observed(calls + [SubmitWf(Install), FetchWf(Install)],
                             match Fetched(rp, Install)
                             case WfUnknown => st
                             case WfPending | WfRunning => st.(installed := Pending, reason := "")
                             case WfSucceeded => st.(installed := Succeeded, reason := "")
                             case WfFailed | WfError => st.(installed := Failed, reason := ""), rp))
  {
    var calls, st := PrereqsCalls(r), PrereqsStatus(r, rp);
    AllSecretsThere(r, rp);
    ToSecrets(cx, r, rp);
    Goes(cx, r, rp, calls, ListSecrets, st, RunWf(Install), st);
    StillUnfinished(cx, r, rp);
    RunsInstall(cx, r, rp, calls + [ListSecrets], st);
  }

  lemma {:induction false} StillUnfinished(cx: Context, r: Record, rp: Replies)
    requires PrereqsDone(cx, r, rp)
    ensures PrereqsStatus(r, rp).installed in {NoPhase, Pending, ValidationFailed, Deleting}
  {
  }

  lemma {:induction false} RunsInstall(cx: Context, r: Record, rp: Replies, calls: seq<Point>, st: Status)
    requires st.installed in {NoPhase, Pending, ValidationFailed, Deleting}
    ensures var res := After(calls, Drive(cx, r, RunWf(Install), st, rp));
            && (r.spec.install.template == "" ==> res == Observed(calls, st.(installed := Succeeded, reason := ""), rp))
            && (r.spec.install.template != "" && Install !in rp.submitted ==>
                  res == Result(calls + [SubmitWf(Install)], Write, st.(installed := Failed, reason := "")))
            && (r.spec.install.template != "" && Install in rp.submitted ==>
                  res == Observed(calls + [SubmitWf(Install), FetchWf(Install)],
                                  match Fetched(rp, Install)
                                  case WfUnknown => st
                                  case WfPending | WfRunning => st.(installed := Pending, reason := "")
                                  case WfSucceeded => st.(installed := Succeeded, reason := "")
                                  case WfFailed | WfError => st.(installed := Failed, reason := ""), rp))
  {
    if r.spec.install.template == "" {
      var st' := st.(installed := Succeeded, reason := "");
      Goes(cx, r, rp, calls, RunWf(Install), st, AfterWf(Install), st');
      Goes(cx, r, rp, calls, AfterWf(Install), st', Observe, st');
      ObservesLast(cx, r, rp, calls, st');
    } else {
      Goes(cx, r, rp, calls, RunWf(Install), st, SubmitWf(Install), st);
      SubmitsInstall(cx, r, rp, calls, st);
    }
  }

  lemma {:induction false} SubmitsInstall(cx: Context, r: Record, rp: Replies, calls: seq<Point>, st: Status)
    ensures var res := After(calls, Drive(cx, r, SubmitWf(Install), st, rp));
            && (Install !in rp.submitted ==>
                  res == Result(calls + [SubmitWf(Install)], Write, st.(installed := Failed, reason := "")))
            && (Install in rp.submitted ==>
                  res == Observed(calls + [SubmitWf(Install), FetchWf(Install)],
                                  match Fetched(rp, Install)
                                  case WfUnknown => st
                                  case WfPending | WfRunning => st.(installed := Pending, reason := "")
                                  case WfSucceeded => st.(installed := Succeeded, reason := "")
                                  case WfFailed | WfError => st.(installed := Failed, reason := ""), rp))
  {
    if Install in rp.submitted {
      var st' := Advance(cx, r, FetchWf(Install), st, rp).1;
      Goes(cx, r, rp, calls, SubmitWf(Install), st, FetchWf(Install), st);
      Goes(cx, r, rp, calls + [SubmitWf(Install)], FetchWf(Install), st, AfterWf(Install), st');
      assert calls + [SubmitWf(Install)] + [FetchWf(Install)] == calls + [SubmitWf(Install), FetchWf(Install)];
      Goes(cx, r, rp, calls + [SubmitWf(Install), FetchWf(Install)], AfterWf(Install), st', Observe, st');
      ObservesLast(cx, r, rp, calls + [SubmitWf(Install), FetchWf(Install)], st');
    } else {
      var st' := st.(installed := Failed, reason := "");
      Goes(cx, r, rp, calls, SubmitWf(Install), st, Write, st');
      EndsAt(cx, r, rp, calls + [SubmitWf(Install)], Write, st');
    }
  }
}
