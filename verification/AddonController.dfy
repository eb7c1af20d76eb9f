/** The methods of the addon controller as it is written: they change an in-memory addon field by
    field (controllers/addon_controller.go). Each is proved to lead from one point of the reconcile
    machine to another, so that together they run the machine of module `Reconciler`. */
module AddonController {
  import opened AddonTypes
  import opened WorkflowNames
  import opened VersionCache
  import opened Reconciler

  /** After the calls in `log`, a reconcile that will end as `goal` stands at a point with a status. */
  ghost predicate Stands(cx: Context, r: Record, rp: Replies, goal: Result, log: seq<Point>, at: Point, st: Status) {
    goal == After(log, Drive(cx, r, at, st, rp))
  }

  lemma {:induction false} Move(cx: Context, r: Record, rp: Replies, goal: Result, log: seq<Point>,
             at: Point, st: Status, at': Point, st': Status)
    requires Stands(cx, r, rp, goal, log, at, st)
    requires !Ended(at) && Advance(cx, r, at, st, rp) == (at', st')
    ensures Stands(cx, r, rp, goal, if IsCall(at) then log + [at] else log, at', st')
  {
    DriveOnce(cx, r, at, st, rp, at', st');
    AfterAfter(log, [at], Drive(cx, r, at', st', rp));
  }

  /** The live workflows by name. */
  class WorkflowStore {
    var items: map<string, WfPhase>

    constructor (items: map<string, WfPhase>)
      ensures this.items == items
    {
      this.items := items;
    }
  }

  class AddonReconciler {
    const cx: Context
    const rp: Replies
    const cache: Cache
    /** The calls made so far, and the end the reconcile is bound for. */
    var log: seq<Point>
    ghost var goal: Result

    constructor (cx: Context, cache: Cache, r: Record, rp: Replies)
      ensures this.cx == cx && this.cache == cache && this.rp == rp && log == [] && goal == Reconcile(cx, r, rp)
    {
      this.cx, this.cache, this.rp, log, goal := cx, cache, rp, [], Reconcile(cx, r, rp);
    }

    /** The addon `a`, read as `r`, has reached the point `at`. */
    ghost predicate At(at: Point, a: Addon, r: Record)
      reads this, a
    {
      && a.spec == r.spec && a.deleting == r.deleting
      && Stands(cx, r, rp, goal, log, at, a.status)
    }

    /** Every secret that is named must be among those listed. */
    method ValidateSecrets(needed: seq<string>) returns (err: bool)
      ensures err <==> !(rp.secrets.Some? && HasSecrets(needed, rp.secrets.value))
    {
      if rp.secrets == None {
        return true;
      }
      var found: set<string> := {};
      for i := 0 to |rp.secrets.value|
        invariant forall s :: s in found <==> s in rp.secrets.value[..i]
      {
        found := found + {rp.secrets.value[i]};
      }
      assert rp.secrets.value[..|rp.secrets.value|] == rp.secrets.value;
      for i := 0 to |needed|
        invariant forall k | 0 <= k < i :: needed[k] in rp.secrets.value
      {
        if needed[i] !in found {
          return true;
        }
      }
      return false;
    }

    /** Deletes the listed workflows one by one; a deletion that fails is passed over. */
    method DeleteOldWorkflows(store: WorkflowStore, owned: set<string>, refused: set<string>) returns (err: bool)
      modifies store
      ensures err <==> !rp.listed
      ensures store.items == if err then old(store.items) else old(store.items) - (owned - refused)
    {
      if !rp.listed {
        return true;
      }
      var todo := owned * store.items.Keys;
      while todo != {}
        invariant todo <= owned
        invariant store.items.Keys == old(store.items.Keys) - ((owned * old(store.items.Keys) - todo) - refused)
        invariant forall w | w in store.items :: store.items[w] == old(store.items)[w]
      {
        var wf :| wf in todo;
        if wf !in refused {
          store.items := store.items - {wf};
        }
        todo := todo - {wf};
      }
      return false;
    }

    /** Submits the workflow of a step unless the step is over or has none, and takes over the
        phase the workflow has. */
    method RunWorkflow(step: LifecycleStep, a: Addon, r: Record) returns (err: bool)
      requires At(RunWf(step), a, r)
      modifies a`status, this`log
      ensures At(if err then Abort(step) else AfterWf(step), a, r)
      ensures err ==> step !in rp.submitted && a.spec.Workflow(step).template != ""
    {
      ghost var st := a.status;
      var over := match step {
        case Prereqs => a.status.prereqs.IsCompleted()
        case Install => a.status.installed.IsCompleted()
        case Delete => a.status.installed == DeleteFailed || a.status.installed == DeleteSucceeded
        case Validate => false
      };
      if over {
        Move(cx, r, rp, goal, log, RunWf(step), st, AfterWf(step), st);
        return false;
      }
      if a.spec.Workflow(step).template == "" {
        var _ := a.SetStatusByLifecycleStep(step, Succeeded, "");
        Move(cx, r, rp, goal, log, RunWf(step), st, AfterWf(step), a.status);
        return false;
      }
      Move(cx, r, rp, goal, log, RunWf(step), st, SubmitWf(step), st);
      err := Submit(step, a, r);
      if !err {
        FetchPhase(step, a, r);
      }
    }

    method Submit(step: LifecycleStep, a: Addon, r: Record) returns (err: bool)
      requires At(SubmitWf(step), a, r)
      modifies a`status, this`log
      ensures At(if err then Abort(step) else FetchWf(step), a, r)
      ensures err <==> step !in rp.submitted
    {
      ghost var st, before := a.status, log;
      log := log + [SubmitWf(step)];
      err := step !in rp.submitted;
      if err {
        var _ := a.SetStatusByLifecycleStep(step, Failed, "");
      }
      Move(cx, r, rp, goal, before, SubmitWf(step), st, if err then Abort(step) else FetchWf(step), a.status);
    }

    method FetchPhase(step: LifecycleStep, a: Addon, r: Record)
      requires At(FetchWf(step), a, r)
      modifies a`status, this`log
      ensures At(AfterWf(step), a, r)
    {
      ghost var st, before := a.status, log;
      log := log + [FetchWf(step)];
      if step in rp.phases {
        var phase := ConvertPhase(step, rp.phases[step]);
        if phase != NoPhase {
          var _ := a.SetStatusByLifecycleStep(step, phase, "");
        }
      }
      Move(cx, r, rp, goal, before, FetchWf(step), st, AfterWf(step), a.status);
    }

    /** Prerequisites first; the install only once they have succeeded and every secret is there. */
    method ExecutePrereqAndInstall(a: Addon, r: Record) returns (err: bool)
      requires At(RunWf(Prereqs), a, r)
      modifies a`status, this`log
      ensures At(if err then Write else Observe, a, r)
    {
      err := RunWorkflow(Prereqs, a, r);
      if err {
        return;
      }
      ghost var st := a.status;
      if a.status.prereqs.IsSucceeded() {
        Move(cx, r, rp, goal, log, AfterWf(Prereqs), st, ListSecrets, st);
        err := SecretsThenInstall(a, r);
      } else {
        if a.status.prereqs.IsFailed() {
          a.SetInstallStatus(Failed, "");
        }
        Move(cx, r, rp, goal, log, AfterWf(Prereqs), st, Observe, a.status);
      }
    }

    method SecretsThenInstall(a: Addon, r: Record) returns (err: bool)
      requires At(ListSecrets, a, r)
      modifies a`status, this`log
      ensures At(if err then Write else Observe, a, r)
    {
      ghost var st, before := a.status, log;
      log := log + [ListSecrets];
      err := ValidateSecrets(a.spec.secrets);
      if err {
        a.SetInstallStatus(Failed, "could not validate secrets");
        Move(cx, r, rp, goal, before, ListSecrets, st, Write, a.status);
        return;
      }
      Move(cx, r, rp, goal, before, ListSecrets, st, RunWf(Install), st);
      err := RunWorkflow(Install, a, r);
      if !err {
        Move(cx, r, rp, goal, log, AfterWf(Install), a.status, Observe, a.status);
      }
    }

    method SetFinalizer(a: Addon, r: Record) returns (err: bool)
      requires At(AddFinalizer, a, r)
      modifies a`status, a`finalizers, this`log
      ensures At(if err then Write else Deadline, a, r)
    {
      ghost var st, before := a.status, log;
      log := log + [AddFinalizer];
      a.finalizers := a.finalizers + {FINALIZER};
      err := !rp.updated;
      if !err {
        a.status := r.status;
      }
      Move(cx, r, rp, goal, before, AddFinalizer, st, if err then Write else Deadline, a.status);
    }

    /** Validates the addon and sees to its finalizer. `over` says that processing ends here. */
    method ValidateAddon(a: Addon, r: Record) returns (over: bool, panicked: bool)
      requires At(Validating, a, r) && a.finalizers == r.finalizers
      modifies a`status, a`finalizers, this`log
      ensures panicked ==> over
      ensures At(if panicked then Stop else if over then Write else Deadline, a, r)
    {
      ghost var st := a.status;
      match rp.verdict {
        case Panicked =>
          Move(cx, r, rp, goal, log, Validating, st, Stop, st);
          return true, true;
        case DependencyPending(reason) =>
          a.SetInstallStatus(Pending, reason);
          Move(cx, r, rp, goal, log, Validating, st, Write, a.status);
          return true, false;
        case Invalid(reason) =>
          a.SetInstallStatus(ValidationFailed, reason);
          Move(cx, r, rp, goal, log, Validating, st, Write, a.status);
          return true, false;
        case Valid =>
          if FINALIZER in a.finalizers {
            Move(cx, r, rp, goal, log, Validating, st, Deadline, st);
            return false, false;
          }
          Move(cx, r, rp, goal, log, Validating, st, AddFinalizer, st);
          var err := SetFinalizer(a, r);
          return err, false;
      }
    }

    method ObserveResources(a: Addon, r: Record)
      requires At(Observe, a, r)
      modifies a`status, this`log
      ensures At(Write, a, r)
    {
      ghost var st, before := a.status, log;
      log := log + [Observe];
      if rp.observed == None {
        a.SetInstallStatus(Failed, "failed to find deployed resources");
      } else if |rp.observed.value| > 0 {
        a.status := a.status.(resources := rp.observed.value);
      }
      Move(cx, r, rp, goal, before, Observe, st, Write, a.status);
    }

    /** The part of processing behind a passed validation. */
    method InstallAddon(a: Addon, r: Record)
      requires At(Deadline, a, r)
      modifies a`status, this`log
      ensures At(Write, a, r)
    {
      ghost var st := a.status;
      if a.status.installed.IsCompleted() {
        Move(cx, r, rp, goal, log, Deadline, st, Observe, st);
        ObserveResources(a, r);
        return;
      }
      if rp.now - a.status.startTime >= TTL {
        a.SetInstallStatus(Failed, "ttl expired");
        Move(cx, r, rp, goal, log, Deadline, st, Write, a.status);
        return;
      }
      Move(cx, r, rp, goal, log, Deadline, st, RunWf(Prereqs), st);
      var err := ExecutePrereqAndInstall(a, r);
      if !err {
        ObserveResources(a, r);
      }
    }

    /** A spec with a new checksum starts a new cycle. */
    method StartCycle(a: Addon, r: Record, store: WorkflowStore, owned: set<string>, refused: set<string>)
      requires At(ListOld, a, r)
      modifies a`status, this`log, store
      ensures At(Write, a, r)
      ensures store.items == if rp.listed then old(store.items) - (owned - refused) else old(store.items)
    {
      ghost var st, before := a.status, log;
      log := log + [ListOld];
      var err := DeleteOldWorkflows(store, owned, refused);
      if !err {
        a.status := a.status.(startTime := rp.now);
        a.ClearStatus();
        var _ := a.SetPrereqAndInstallStatuses(Pending, "");
      }
      Move(cx, r, rp, goal, before, ListOld, st, Write, a.status);
    }

    method ProcessAddon(a: Addon, r: Record, store: WorkflowStore, owned: set<string>, refused: set<string>)
      returns (panicked: bool)
      requires At(Begin, a, r) && !a.deleting && a.finalizers == r.finalizers
      modifies a`status, a`finalizers, this`log, store
      ensures At(if panicked then Stop else Write, a, r)
    {
      ghost var st := a.status;
      var changed := a.status.checksum != Checksum(cx, a.spec);
      a.status := a.status.(checksum := Checksum(cx, a.spec));
      a.status := a.status.(resources := []);
      panicked := false;
      if changed {
        Move(cx, r, rp, goal, log, Begin, st, ListOld, a.status);
        StartCycle(a, r, store, owned, refused);
      } else if a.status.installed.IsCompleted() {
        Move(cx, r, rp, goal, log, Begin, st, Write, a.status);
      } else {
        Move(cx, r, rp, goal, log, Begin, st, Validating, a.status);
        var over;
        over, panicked := ValidateAddon(a, r);
        if !over {
          InstallAddon(a, r);
        }
      }
    }

    method DropFinalizer(a: Addon, r: Record) returns (err: bool)
      requires At(RemoveFinalizer, a, r)
      modifies a`status, a`finalizers, this`log
      ensures At(Stop, a, r) && a.finalizers == old(a.finalizers) - {FINALIZER}
      ensures err <==> !rp.updated
    {
      ghost var st, before := a.status, log;
      log := log + [RemoveFinalizer];
      a.finalizers := a.finalizers - {FINALIZER};
      err := !rp.updated;
      if err {
        a.SetInstallStatus(DeleteFailed, "could not be deleted");
      }
      Move(cx, r, rp, goal, before, RemoveFinalizer, st, Stop, a.status);
    }

    /** Runs the delete workflow, if there is one, and lets go of the addon once it has succeeded.
        Unless the workflow could not be submitted, the addon leaves the cache. */
    method Finalize(a: Addon, r: Record) returns (err: bool)
      requires At(if a.spec.delete.template != "" then RunWf(Delete) else RemoveFinalizer, a, r)
      modifies a`status, a`finalizers, this`log, cache`addons
      ensures At(Stop, a, r)
      ensures cache.Contents() == old(cache.Contents()) - {(a.spec.pkg.name, a.spec.pkg.version)}
              || (err && cache.Contents() == old(cache.Contents()) && Delete !in rp.submitted && a.spec.delete.template != "")
    {
      var remove := true;
      if a.spec.delete.template != "" {
        remove := false;
        err := RunWorkflow(Delete, a, r);
        if err {
          return;
        }
        remove := a.status.installed.IsSucceeded();
        Move(cx, r, rp, goal, log, AfterWf(Delete), a.status, if remove then RemoveFinalizer else Stop, a.status);
      }
      cache.RemoveVersion(a.spec.pkg.name, a.spec.pkg.version);
      err := false;
      if remove {
        err := DropFinalizer(a, r);
      }
    }

    /** One reconcile ends exactly as the machine does: with its calls, its status, and a status to
        hand to the updater or none. */
    method ExecAddon(a: Addon, r: Record, store: WorkflowStore, owned: set<string>, refused: set<string>)
      returns (write: bool)
      requires log == [] && goal == Reconcile(cx, r, rp)
      requires a.spec == r.spec && a.deleting == r.deleting && a.finalizers == r.finalizers && a.status == r.status
      modifies a`status, a`finalizers, this`log, store, cache`addons
      ensures Reconcile(cx, r, rp) == Result(log, if write then Write else Stop, a.status)
      ensures write || !a.deleting ==> cache.Contents() == old(cache.Contents())
    {
      assert [] + goal.calls == goal.calls;
      if a.deleting {
        if !a.status.installed.IsDeleting() {
          ghost var st := a.status;
          a.SetInstallStatus(Deleting, "");
          Move(cx, r, rp, goal, log, Begin, st, Write, a.status);
          write := true;
        } else {
          Move(cx, r, rp, goal, log, Begin, a.status,
               if a.spec.delete.template != "" then RunWf(Delete) else RemoveFinalizer, a.status);
          var _ := Finalize(a, r);
          write := false;
        }
      } else {
        var panicked := ProcessAddon(a, r, store, owned, refused);
        write := !panicked;
      }
      assert log + [] == log;
    }
  }
}
