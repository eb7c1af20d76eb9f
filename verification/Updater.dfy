/** The status updater shared by both controllers, and the workflow controller in front of it
    (pkg/addon/addon_update.go, controllers/workflow_controller.go). */
module Updater {
  import opened AddonTypes
  import opened WorkflowNames
  import opened VersionCache
  import opened Reconciler

  // ---------------------------------------------------------------------------
  // One call of UpdateStatus.

  datatype PutReply = Stored | Conflict | Rejected

  /** One attempt: the status read back (`None` when reading failed) and the answer to the write. */
  datatype Attempt = Attempt(current: Option<Status>, put: PutReply)

  datatype Outcome = Landed(at: nat) | Blocked(at: nat) | ReadFailed | WriteFailed | OutOfRetries

  const RETRIES := 5

  /** How a call ends that is about to make the attempt `k` of those it has. */
  function Settle(attempts: seq<Attempt>, st: Status, k: nat): Outcome
    requires k <= |attempts|
    decreases |attempts| - k
  {
    if k == |attempts| then OutOfRetries
    else if attempts[k].current == None then ReadFailed
    else if GuardFires(attempts[k].current.value, st) then Blocked(k)
    else match attempts[k].put
         case Stored => Landed(k)
         case Rejected => WriteFailed
         case Conflict => Settle(attempts, st, k + 1)
  }

  /** The attempt `i` passed the guard and sent its write. */
  predicate Sends(attempts: seq<Attempt>, st: Status, i: nat)
    requires i < |attempts|
  {
    attempts[i].current.Some? && !GuardFires(attempts[i].current.value, st)
  }

  /** Every attempt before `k` sent a write that met a conflict. */
  predicate AllConflict(attempts: seq<Attempt>, st: Status, k: nat)
    requires k <= |attempts|
  {
    forall j | 0 <= j < k :: Sends(attempts, st, j) && attempts[j].put == Conflict
  }

  lemma {:induction false} SettleFrom(attempts: seq<Attempt>, st: Status, k: nat, i: nat)
    requires k <= |attempts| && i < |attempts| && AllConflict(attempts, st, k)
    ensures Settle(attempts, st, k) == Landed(i) <==>
              AllConflict(attempts, st, i) && Sends(attempts, st, i) && attempts[i].put == Stored
    ensures Settle(attempts, st, k) == Blocked(i) <==>
              AllConflict(attempts, st, i) && attempts[i].current.Some? && GuardFires(attempts[i].current.value, st)
    decreases |attempts| - k
  {
    if k < |attempts| && AllConflict(attempts, st, k + 1) {
      SettleFrom(attempts, st, k + 1, i);
    } else if k < i {
      assert !AllConflict(attempts, st, i);
    }
  }

  /** However many attempts a call has, and whatever the server answers: the call reports the attempt
      `i` as landed exactly when that attempt passed the guard and stored its write while every one
      before it met a conflict, and as blocked exactly when the guard fired there, again after
      conflicts only. So a call stores at most one write, and none if the guard ends it. */
  lemma OneWritePerCall(attempts: seq<Attempt>, st: Status, i: nat)
    requires i < |attempts|
    ensures Settle(attempts, st, 0) == Landed(i) <==>
              AllConflict(attempts, st, i) && Sends(attempts, st, i) && attempts[i].put == Stored
    ensures Settle(attempts, st, 0) == Blocked(i) <==>
              && AllConflict(attempts, st, i) && attempts[i].current.Some?
              && attempts[i].current.value.installed in {Succeeded, Failed, DeleteSucceeded, DeleteFailed}
              && st.installed in {Pending, ValidationFailed} && attempts[i].current.value.checksum == st.checksum
  {
    SettleFrom(attempts, st, 0, i);
  }

  lemma {:induction false} SettleFails(attempts: seq<Attempt>, st: Status, k: nat)
    requires k <= |attempts| && AllConflict(attempts, st, k)
    ensures Settle(attempts, st, k) == ReadFailed <==>
              exists i: nat | i < |attempts| :: AllConflict(attempts, st, i) && attempts[i].current == None
    ensures Settle(attempts, st, k) == WriteFailed <==>
              exists i: nat | i < |attempts| :: AllConflict(attempts, st, i) && Sends(attempts, st, i) && attempts[i].put == Rejected
    ensures Settle(attempts, st, k) == OutOfRetries <==> AllConflict(attempts, st, |attempts|)
    decreases |attempts| - k
  {
    if k < |attempts| {
      if AllConflict(attempts, st, k + 1) {
        SettleFails(attempts, st, k + 1);
      } else {
        forall i: nat | k < i <= |attempts| ensures !AllConflict(attempts, st, i) {}
      }
    }
  }

  /** A call fails by a read that fails or a write that is rejected, after conflicts only, and gives up
      exactly when every attempt met a conflict. */
  lemma {:induction false} FailuresPerCall(attempts: seq<Attempt>, st: Status)
    ensures Settle(attempts, st, 0) == ReadFailed <==>
              exists i: nat | i < |attempts| :: AllConflict(attempts, st, i) && attempts[i].current == None
    ensures Settle(attempts, st, 0) == WriteFailed <==>
              exists i: nat | i < |attempts| :: AllConflict(attempts, st, i) && Sends(attempts, st, i) && attempts[i].put == Rejected
    ensures Settle(attempts, st, 0) == OutOfRetries <==> AllConflict(attempts, st, |attempts|)
  {
    SettleFails(attempts, st, 0);
  }

  // ---------------------------------------------------------------------------
  // What a workflow says about an addon.

  /** The status to write for a workflow of the given name and phase; `None` when there is nothing to write. */
  function FromWorkflow(cx: Context, r: Record, wfName: string, phase: WfPhase, message: string): Option<Status> {
    var named := Extract(wfName);
    if r.status.installed.IsCompleted() || named == None then None
    else
      var (checksum, step) := named.value;
      if FormattedName(cx, r.spec, step) != wfName || Checksum(cx, r.spec) != checksum || phase == WfUnknown then None
      else
        var addonPhase := ConvertPhase(step, phase);
        Some(WithStep(r.status, step, addonPhase, if addonPhase.IsFailed() then message else ""))
  }

  /** A workflow speaks for an addon exactly when it carries the name the addon's own spec gives to
      one of its steps, and then for that step alone; the checksum recorded is left as it was. */
  lemma FromWorkflowMeans(cx: Context, r: Record, wfName: string, phase: WfPhase, message: string)
    ensures var got := FromWorkflow(cx, r, wfName, phase, message);
            && (got.Some? <==>
                && !r.status.installed.IsCompleted() && phase != WfUnknown
                && exists step :: FormattedName(cx, r.spec, step) == wfName)
            && (got.Some? ==> !GuardFires(r.status, got.value) && got.value.checksum == r.status.checksum)
    ensures forall step | FormattedName(cx, r.spec, step) == wfName && FromWorkflow(cx, r, wfName, phase, message).Some? ::
              FromWorkflow(cx, r, wfName, phase, message).value
              == WithStep(r.status, step, ConvertPhase(step, phase),
                          if ConvertPhase(step, phase).IsFailed() then message else "")
  {
    forall step | FormattedName(cx, r.spec, step) == wfName
      ensures Extract(wfName) == Some((Checksum(cx, r.spec), step))
    {
      RoundTrip(cx, r.spec, step);
    }
    var got := FromWorkflow(cx, r, wfName, phase, message);
    if got.Some? {
      var step := Extract(wfName).value.1;
      assert FormattedName(cx, r.spec, step) == wfName;
      StepOutcome(r.status, step, phase, if ConvertPhase(step, phase).IsFailed() then message else "");
    }
  }

  /** The status after a step whose workflow has come to a phase, field by field. */
  ghost predicate Reports(st: Status, step: LifecycleStep, phase: WfPhase, message: string, st': Status) {
    match step
    case Prereqs =>
      if phase == WfSucceeded then st' == st.(prereqs := Succeeded, installed := Pending, reason := "")
      else if phase == WfFailed || phase == WfError then st' == st.(prereqs := Failed, installed := Failed, reason := message)
      else st' == st.(prereqs := Pending, installed := Pending, reason := "")
    case Install =>
      if phase == WfSucceeded then st' == st.(installed := Succeeded, reason := "")
      else if phase == WfFailed || phase == WfError then st' == st.(installed := Failed, reason := message)
      else st' == st.(installed := Pending, reason := "")
    case Delete =>
      if phase == WfSucceeded then st' == st.(installed := DeleteSucceeded, reason := "")
      else if phase == WfFailed || phase == WfError then st' == st.(installed := DeleteFailed, reason := message)
      else st' == st.(installed := Deleting, reason := "")
    case Validate => st' == st
  }

  lemma StepReports(st: Status, step: LifecycleStep, phase: WfPhase, message: string)
    requires phase != WfUnknown
    ensures Reports(st, step, phase, message,
                    WithStep(st, step, ConvertPhase(step, phase), if ConvertPhase(step, phase).IsFailed() then message else ""))
  {
  }

  /** What each phase of a workflow does to the status of an addon that is not completed. */
  lemma WorkflowReports(cx: Context, r: Record, step: LifecycleStep, phase: WfPhase, message: string)
    requires r.status.installed in {NoPhase, Pending, ValidationFailed, Deleting} && phase != WfUnknown
    ensures var got := FromWorkflow(cx, r, FormattedName(cx, r.spec, step), phase, message);
            got.Some? && Reports(r.status, step, phase, message, got.value)
  {
    FromWorkflowMeans(cx, r, FormattedName(cx, r.spec, step), phase, message);
    StepReports(r.status, step, phase, message);
  }

  // ---------------------------------------------------------------------------
  // The updater as it is written.

  /** A workflow as the controller reads it; `owner` is the kind of the object that controls it. */
  datatype Workflow = Workflow(name: string, deleting: bool, phase: WfPhase, message: string, owner: Option<string>)

  datatype Fetched = NotFound | FetchFailed | Found(wf: Workflow)

  /** A live workflow with a phase, controlled by an addon. */
  predicate Heard(f: Fetched) { f.Found? && !f.wf.deleting && f.wf.phase != WfUnknown && f.wf.owner == Some("Addon") }

  /** A live workflow with a phase that nothing controls, which is an error. */
  predicate Orphan(f: Fetched) { f.Found? && !f.wf.deleting && f.wf.phase != WfUnknown && f.wf.owner == None }

  class Mutex {
    constructor () { }
  }

  class AddonUpdater {
    const cx: Context
    const namespace: string
    const cache: Cache
    var statusMap: map<string, Mutex>

    constructor (cx: Context, namespace: string, cache: Cache)
      ensures this.cx == cx && this.namespace == namespace && this.cache == cache && statusMap == map[]
    {
      this.cx, this.namespace, this.cache, statusMap := cx, namespace, cache, map[];
    }

    /** The one mutex of a name: made when first asked for and the same ever after. */
    method GetStatusMutex(name: string) returns (m: Mutex)
      modifies this`statusMap
      ensures name in statusMap && statusMap[name] == m
      ensures name in old(statusMap) ==> statusMap == old(statusMap)
      ensures name !in old(statusMap) ==> statusMap == old(statusMap)[name := m] && fresh(m)
    {
      if name !in statusMap {
        m := new Mutex();
        statusMap := statusMap[name := m];
      } else {
        m := statusMap[name];
      }
    }

    method AddAddonToCache(a: Addon)
      modifies cache`addons
      ensures cache.Contents() == old(cache.Contents())[(a.spec.pkg.name, a.spec.pkg.version) :=
                                    Version(a.name, namespace, a.spec.pkg, a.status.installed)]
    {
      cache.AddVersion(Version(a.name, namespace, a.spec.pkg, a.status.installed));
    }

    /** The retry loop. The cache takes the phase over exactly when the write has landed. */
    method UpdateStatus(a: Addon, attempts: seq<Attempt>) returns (outcome: Outcome)
      requires |attempts| == 5
      modifies this`statusMap, cache`addons
      ensures outcome == Settle(attempts, a.status, 0)
      ensures a.name in statusMap
      ensures cache.Contents() ==
              if outcome.Landed?
              then old(cache.Contents())[(a.spec.pkg.name, a.spec.pkg.version) :=
                                         Version(a.name, namespace, a.spec.pkg, a.status.installed)]
              else old(cache.Contents())
    {
      var m := GetStatusMutex(a.name);
      var guardFired := false;
      var done := false;
      var k := 0;
      outcome := OutOfRetries;
      while !done && k < RETRIES
        invariant k <= RETRIES
        invariant cache.Contents() == old(cache.Contents()) && a.name in statusMap
        invariant guardFired <==> outcome.Blocked?
        invariant !done ==> outcome == OutOfRetries
        invariant Settle(attempts, a.status, 0) == if done then outcome else Settle(attempts, a.status, k)
      {
        if attempts[k].current == None {
          outcome, done := ReadFailed, true;
        } else if GuardFires(attempts[k].current.value, a.status) {
          guardFired, outcome, done := true, Blocked(k), true;
        } else {
          match attempts[k].put {
            case Stored => outcome, done := Landed(k), true;
            case Rejected => outcome, done := WriteFailed, true;
            case Conflict =>
          }
        }
        k := k + 1;
      }
      if outcome.Landed? {
        AddAddonToCache(a);
      }
    }

    /** Works on a copy of the addon; `write` says that its status is to go to `UpdateStatus`. */
    method StatusFromWorkflow(a: Addon, wfName: string, phase: WfPhase, message: string) returns (write: bool, err: bool)
      requires a.name == cx.name
      modifies a`status
      ensures var got := FromWorkflow(cx, Record(a.spec, old(a.status), a.deleting, a.finalizers), wfName, phase, message);
              write == got.Some? && a.status == if write then got.value else old(a.status)
      ensures err <==> !old(a.status).installed.IsCompleted() && Extract(wfName) == None
    {
      if a.status.installed.IsCompleted() {
        return false, false;
      }
      var named := Extract(wfName);
      if named == None {
        return false, true;
      }
      var checksum, step := named.value.0, named.value.1;
      if FormattedName(cx, a.spec, step) != wfName {
        return false, false;
      }
      if Checksum(cx, a.spec) != checksum {
        return false, false;
      }
      var addonPhase := ConvertPhase(step, phase);
      var reason := "";
      if addonPhase == NoPhase {
        return false, false;
      }
      if addonPhase.IsFailed() {
        reason := message;
      }
      err := a.SetStatusByLifecycleStep(step, addonPhase, reason);
      return !err, err;
    }

    /** Reads the addon, `None` when that fails, and hands what the workflow says to `UpdateStatus`. */
    method UpdateFromWorkflow(existing: Option<Addon>, wf: Workflow, attempts: seq<Attempt>)
      returns (err: bool, ghost sent: Option<Outcome>)
      requires existing.Some? ==> existing.value.name == cx.name
      requires |attempts| == 5
      modifies this`statusMap, cache`addons, if existing.Some? then {existing.value} else {}
      ensures existing == None ==> err && sent == None
      ensures existing.Some? ==>
                var a := existing.value;
                var r := Record(a.spec, old(a.status), a.deleting, old(a.finalizers));
                var got := FromWorkflow(cx, r, wf.name, wf.phase, wf.message);
                && sent == (if got == None then None else Some(Settle(attempts, got.value, 0)))
                && (err <==> if got == None then !r.status.installed.IsCompleted() && Extract(wf.name) == None
                             else !Settle(attempts, got.value, 0).Landed?)
                && (sent.Some? && sent.value.Landed? ==>
                      cache.Contents() == old(cache.Contents())[(a.spec.pkg.name, a.spec.pkg.version) :=
                                            Version(a.name, namespace, a.spec.pkg, got.value.installed)])
      ensures sent == None || !sent.value.Landed? ==> cache.Contents() == old(cache.Contents())
    {
      if existing == None {
        return true, None;
      }
      var write;
      write, err := StatusFromWorkflow(existing.value, wf.name, wf.phase, wf.message);
      if !write {
        return err, None;
      }
      var outcome := UpdateStatus(existing.value, attempts);
      return !outcome.Landed?, Some(outcome);
    }

    /** What the workflow controller does with a workflow it is told about: it speaks to the addon only
        for a live workflow that has a phase and that an addon controls. */
    method ReconcileWorkflow(fetched: Fetched, existing: Option<Addon>, attempts: seq<Attempt>)
      returns (err: bool, ghost sent: Option<Outcome>)
      requires existing.Some? ==> existing.value.name == cx.name
      requires |attempts| == 5
      modifies this`statusMap, cache`addons, if existing.Some? then {existing.value} else {}
      ensures sent.Some? ==> Heard(fetched) && existing.Some?
      ensures Heard(fetched) && existing.Some? ==>
                var a := existing.value;
                var r := Record(a.spec, old(a.status), a.deleting, old(a.finalizers));
                var got := FromWorkflow(cx, r, fetched.wf.name, fetched.wf.phase, fetched.wf.message);
                && sent == (if got == None then None else Some(Settle(attempts, got.value, 0)))
                && (err <==> if got == None then !r.status.installed.IsCompleted() && Extract(fetched.wf.name) == None
                             else !Settle(attempts, got.value, 0).Landed?)
                && (sent.Some? && sent.value.Landed? ==>
                      cache.Contents() == old(cache.Contents())[(a.spec.pkg.name, a.spec.pkg.version) :=
                                            Version(a.name, namespace, a.spec.pkg, got.value.installed)])
      ensures Heard(fetched) && existing == None ==> err
      ensures !Heard(fetched) ==> (err <==> fetched.FetchFailed? || Orphan(fetched))
      ensures sent == None || !sent.value.Landed? ==> cache.Contents() == old(cache.Contents())
    {
      if fetched.NotFound? {
        return false, None;
      } else if fetched.FetchFailed? {
        return true, None;
      }
      var wf := fetched.wf;
      if wf.deleting {
        return false, None;
      }
      if wf.phase == WfUnknown {
        return false, None;
      }
      if wf.owner == None {
        return true, None;
      }
      if wf.owner.value != "Addon" {
        return false, None;
      }
      err, sent := UpdateFromWorkflow(existing, wf, attempts);
    }

    /** Forgets one entry of the addon, and its mutex. */
    method RemoveFromCache(name: string)
      requires WellKeyed(cache.Contents())
      modifies this`statusMap, cache`addons
      ensures statusMap == old(statusMap) - {name}
      ensures (forall k | k in old(cache.Contents()) :: old(cache.Contents())[k].name != name)
              ==> cache.Contents() == old(cache.Contents())
      ensures (exists k :: k in old(cache.Contents()) && old(cache.Contents())[k].name == name)
              ==> exists k :: k in old(cache.Contents()) && old(cache.Contents())[k].name == name
                              && cache.Contents() == old(cache.Contents()) - {k}
    {
      var found := cache.HasVersionName(name);
      if found.Some? {
        cache.RemoveVersion(found.value.pkg.name, found.value.pkg.version);
      }
      statusMap := statusMap - {name};
    }
  }
}
