/** A failed delete is final, and exactly which stale reads can undo it. */
module Finality {
  import opened AddonTypes
  import opened WorkflowNames
  import opened Reconciler
  import opened Updater
  import opened Protocol
  import opened Evidence

  /** A failed delete is on record, with nothing in flight, and the addon is to be deleted by a workflow. */
  predicate DeleteFailedOnRecord(w: World) {
    && WellFormed(w) && w.calls == map[] && Latest(w).deleting && Latest(w).status.installed == DeleteFailed
    && Latest(w).spec.delete.template != "" && Latest(w).finalizers != {}
  }

  // ---------------------------------------------------------------------------
  // Which reads are quiet.

  /** A write that is blocked, or that leaves the status as it is. */
  predicate NoEffect(current: Status, st: Status) { GuardFires(current, st) || st == current }

  /** Whatever the cluster answers, a reconcile of the old version `r` has no effect on the status. */
  predicate QuietForAddon(cx: Context, current: Status, r: Record) {
    if r.deleting then r.status.installed.IsDeleting()
    else if r.status.checksum != Checksum(cx, r.spec) then
      Checksum(cx, r.spec) == current.checksum
      && NoEffect(current, r.status.(checksum := Checksum(cx, r.spec), resources := []))
    else if r.status.installed.IsCompleted() then NoEffect(current, r.status.(resources := []))
    else r.status.checksum == current.checksum && r.status.installed.IsRunning() && FINALIZER !in r.finalizers
  }

  predicate QuietForWorkflow(cx: Context, current: Status, r: Record, wf: string, phase: WfPhase, message: string) {
    var got := FromWorkflow(cx, r, wf, phase, message);
    got.Some? ==> NoEffect(current, got.value)
  }

  /** All reads of versions before `n` are quiet, and edits keep a delete template. */
  predicate Quiet(cx: Context, ls: seq<Label>, hist: seq<Record>, n: nat)
    requires n < |hist|
  {
    forall i | 0 <= i < |ls| :: QuietStep(cx, ls[i], hist, n)
  }

  predicate QuietStep(cx: Context, l: Label, hist: seq<Record>, n: nat)
    requires n < |hist|
  {
    match l
    case AddonReads(snap) => snap < n ==> QuietForAddon(cx, hist[n].status, hist[snap])
    case WorkflowReads(snap, wf, phase, message) =>
      snap < n ==> QuietForWorkflow(cx, hist[n].status, hist[snap], wf, phase, message)
    case UserEdits(spec) => spec.delete.template != ""
    case _ => true
  }

  // ---------------------------------------------------------------------------
  // The invariant.

  /** A reconcile of an old version that was not being deleted, on its way to a write without effect. */
  predicate QuietPoint(cx: Context, current: Status, r: Record, at: Point, st: Status) {
    match at
    case Begin => QuietForAddon(cx, current, r) && st == r.status
    case ListOld => st.checksum == current.checksum && NoEffect(current, st)
    case Validating | AddFinalizer =>
      st.checksum == current.checksum && st.installed.IsRunning() && FINALIZER !in r.finalizers
    case _ => false
  }

  /** A call that will have no effect on the status: see the cases above, and for versions from `n` on
      a reconcile that has not changed its status and has yet to make a call. */
  predicate Idle(cx: Context, hist: seq<Record>, n: nat, current: Status, p: Call) {
    && p.snap < |hist|
    && match p
       case Updating(_, st, stage) =>
         NoEffect(current, st) && (stage.Got? ==> stage.version < |hist| && !GuardFires(hist[stage.version].status, st))
       case Reconciling(snap, at, st, _) =>
         if snap >= n then st == current && at in {Begin, RunWf(Delete), AfterWf(Delete)}
         else if hist[snap].deleting then (at == Begin && st.installed.IsDeleting()) || DeletePoint(at)
         else QuietPoint(cx, current, hist[snap], at, st)
  }

  predicate Alike(r: Record, first: Record) {
    r.status == first.status && r.deleting && r.spec.delete.template != "" && r.finalizers == first.finalizers
  }

  /** From the version `n` of `w` on, nothing has happened to status, deletion, template and finalizers. */
  ghost predicate Stuck(cx: Context, w: World, n: nat, w': World) {
    && WellFormed(w') && w.hist <= w'.hist && n < |w.hist| && w'.gone == w.gone
    && (forall k | n <= k < |w'.hist| :: Alike(w'.hist[k], w.hist[n]))
    && (forall c | c in w'.calls :: Idle(cx, w'.hist, n, w.hist[n].status, w'.calls[c]))
  }

  /** A reconcile of a version whose delete has failed does nothing, one of an older version that is at
      its deletion never comes to a write, and any other comes to one without effect at most. */
  lemma IdleMoves(cx: Context, hist: seq<Record>, n: nat, current: Status, p: Call, rp: Replies)
    requires p.Reconciling? && Idle(cx, hist, n, current, p) && current.installed == DeleteFailed
    requires p.snap >= n ==> hist[p.snap].deleting && hist[p.snap].spec.delete.template != ""
    requires p.at == AddFinalizer ==> !rp.updated
    ensures NextCall(cx, hist[p.snap], p, rp).Some? ==> Idle(cx, hist, n, current, NextCall(cx, hist[p.snap], p, rp).value)
  {
  }

  lemma ReadIdle(cx: Context, w: World, n: nat, w': World, l: Label)
    requires Stuck(cx, w, n, w') && Enabled(cx, w', l) && QuietStep(cx, l, w.hist, n) && (l.AddonReads? || l.WorkflowReads?)
    requires w.hist[n].status.installed == DeleteFailed
    ensures var ch := ChangeOf(cx, w', l); ch.call.Some? ==> Idle(cx, w'.hist, n, w.hist[n].status, ch.call.value)
  {
    if l.snap < n {
      assert w'.hist[l.snap] == w.hist[l.snap];
    } else {
      assert Alike(w'.hist[l.snap], w.hist[n]);
    }
  }

  lemma MovedIdle(cx: Context, w: World, n: nat, w': World, l: Label)
    requires Stuck(cx, w, n, w') && Enabled(cx, w', l) && QuietStep(cx, l, w.hist, n)
    requires w.hist[n].status.installed == DeleteFailed
    ensures var ch := ChangeOf(cx, w', l); ch.call.Some? ==> Idle(cx, w'.hist, n, w.hist[n].status, ch.call.value)
  {
    if l.AddonReads? || l.WorkflowReads? {
      ReadIdle(cx, w, n, w', l);
    } else if l.AddonSteps? {
      assert Idle(cx, w'.hist, n, w.hist[n].status, w'.calls[l.call]);
      IdleMoves(cx, w'.hist, n, w.hist[n].status, w'.calls[l.call], l.rp);
    }
  }

  lemma StoredAlike(cx: Context, w: World, n: nat, w': World, l: Label)
    requires Stuck(cx, w, n, w') && Enabled(cx, w', l) && QuietStep(cx, l, w.hist, n)
    requires w.hist[n].status.installed == DeleteFailed && w.hist[n].finalizers != {}
    ensures var ch := ChangeOf(cx, w', l); ch.stored.Some? ==> Alike(ch.stored.value, w.hist[n])
    ensures GoneAfter(w', l) == w'.gone
  {
    assert Alike(Latest(w'), w.hist[n]);
    if l.AddonSteps? || l.Puts? { assert Idle(cx, w'.hist, n, w.hist[n].status, w'.calls[l.call]); }
  }

  lemma IdleStays(cx: Context, hist: seq<Record>, r: Option<Record>, n: nat, current: Status, p: Call)
    requires Idle(cx, hist, n, current, p)
    ensures Idle(cx, Append(hist, r), n, current, p)
  {
  }

  lemma IdleGrows(cx: Context, hist: seq<Record>, n: nat, current: Status, calls: map<nat, Call>, ch: Change)
    requires forall c | c in calls :: Idle(cx, hist, n, current, calls[c])
    requires ch.call.Some? ==> Idle(cx, hist, n, current, ch.call.value)
    ensures var calls' := CallsAfter(calls, ch);
            forall c | c in calls' :: Idle(cx, Append(hist, ch.stored), n, current, calls'[c])
  {
    var calls' := CallsAfter(calls, ch);
    forall c | c in calls' ensures Idle(cx, Append(hist, ch.stored), n, current, calls'[c]) {
      IdleStays(cx, hist, ch.stored, n, current, calls'[c]);
    }
  }

  lemma StuckStep(cx: Context, w: World, n: nat, w': World, l: Label)
    requires Stuck(cx, w, n, w') && Enabled(cx, w', l) && QuietStep(cx, l, w.hist, n)
    requires w.hist[n].status.installed == DeleteFailed && w.hist[n].finalizers != {}
    ensures Stuck(cx, w, n, Step(cx, w', l))
  {
    StepWellFormed(cx, w', l);
    MovedIdle(cx, w, n, w', l);
    StoredAlike(cx, w, n, w', l);
    IdleGrows(cx, w'.hist, n, w.hist[n].status, w'.calls, ChangeOf(cx, w', l));
  }

  /** A failed delete is final: once it is on record, with nothing in flight, a delete template kept
      and only quiet reads of older versions, no later version has another status or other
      finalizers, and the addon does not go. */
  lemma {:induction false} DeleteFailedIsFinal(cx: Context, w: World, ls: seq<Label>, w': World)
    requires DeleteFailedOnRecord(w) && Play(cx, w, ls) == Some(w') && Quiet(cx, ls, w.hist, |w.hist| - 1)
    ensures Stuck(cx, w, |w.hist| - 1, w')
    decreases |ls|
  {
    if ls != [] {
      var n := |ls| - 1;
      var before := LastStep(cx, w, ls, w');
      assert QuietStep(cx, ls[n], w.hist, |w.hist| - 1);
      DeleteFailedIsFinal(cx, w, ls[..n], before);
      StuckStep(cx, w, |w.hist| - 1, before, ls[n]);
    }
  }
}
